/**
 * How old an answer without a refresh can be, in every run: from when its value was loaded, or when its row was written. What
 * memory and the walks keep for one key `k`, when the table gives it no row that lasts longer than `bound`.
 */
module DashboardAge {
  import opened Options
  import opened CacheKey
  import opened DashboardMemory
  import opened DashboardCache
  import opened DashboardProvenance
  import opened DashboardFreshness
  import opened DashboardRefresh
  import opened MinMax

  /** Snapshots are on and take this key. */
  predicate SnapTakes(cfg: Config, k: Key) { cfg.snapEnabled && SnapshotEndpoint(k.endpoint) }

  /** What memory keeps a value for when its tier gives it no time. */
  function Whole(cfg: Config, k: Key): Ttl { if cfg.readonly then cfg.readonlyTtlMs(k) else cfg.ttlMs(k) }

  function RowTtl(cfg: Config, k: Key): Ttl { if TrendEndpoint(k.endpoint) then cfg.tableTtlMs(k) else Whole(cfg, k) }

  /** The row of `j` may be read for `k`: it is its own, or a trend shares its dimensions. */
  ghost predicate GivesRow(ks: iset<Key>, j: Key, k: Key) { j in ks && (j == k || (TrendEndpoint(k.endpoint) && SameDims(j, k))) }

  ghost predicate RowsWithin(ks: iset<Key>, cfg: Config, k: Key, bound: int) {
    forall j :: GivesRow(ks, j, k) ==> cfg.tableTtlMs(j) <= bound
  }

  /** An expired row may be read for `k`: where that is allowed at all, one that expires before it is too old to be read. */
  ghost predicate StaleRow(ks: iset<Key>, cfg: Config, k: Key) {
    && cfg.tableEnabled && (cfg.readonly || TrendEndpoint(k.endpoint))
    && exists j :: GivesRow(ks, j, k) && cfg.tableTtlMs(j) < cfg.maxStaleMs(k)
  }

  /** The longest life memory gives a value on its own account. */
  function Longest(cfg: Config, k: Key): int { Max(cfg.ttlMs(k), Max(cfg.readonlyTtlMs(k), cfg.tableTtlMs(k))) }

  /** The oldest a value gets that no snapshot kept, but for the time between reading and using it. */
  function Limit(cfg: Config, k: Key, bound: int): int { Max(bound, cfg.maxStaleMs(k) + Longest(cfg, k)) }

  predicate AgeIn(cfg: Config, k: Key, bound: int, f: Fill, at: int) {
    at <= f.origin + Limit(cfg, k, bound) + (f.usedAt - f.readAt)
  }

  // ---------------------------------------------------------------- what memory holds

  /** Kept by memory for `ttl` until `exp`, from the table or a loader. */
  ghost predicate RowFed(ks: iset<Key>, cfg: Config, k: Key, bound: int, f: Fill, ttl: int, exp: int) {
    AgeIn(cfg, k, bound, f, exp) && (!HadTime(f) ==> StaleRow(ks, cfg, k) && ttl == RowTtl(cfg, k))
  }

  /** Kept by memory for `ttl`, from a snapshot; one that was read as stale, or is short, has ordered a refresh. */
  predicate SnapFed(cfg: Config, k: Key, f: Fill, ttl: int, ordered: bool) {
    && SnapTakes(cfg, k)
    && (HadTime(f) ==>
          ttl <= Max(cfg.nearMs(k), cfg.snapTtlMs(k)) && (cfg.readonly || cfg.snapTtlMs(k) > cfg.nearMs(k) || ordered))
    && (!HadTime(f) ==> ttl == Whole(cfg, k) && (cfg.readonly || ordered))
  }

  /** Some refresh has been ordered in the run. */
  predicate Ordered(l: Local) { l.tasks != [] }

  ghost predicate EntryAged(ks: iset<Key>, cfg: Config, k: Key, bound: int, e: MemEntry, ordered: bool) {
    RowFed(ks, cfg, k, bound, e.fill, e.ttlMs, e.exp) || SnapFed(cfg, k, e.fill, e.ttlMs, ordered)
  }

  ghost predicate MemAged(ks: iset<Key>, cfg: Config, k: Key, bound: int, l: Local) {
    var t := BuildDashboardCacheKey(k);
    t in l.mem ==> EntryAged(ks, cfg, k, bound, l.mem[t], Ordered(l))
  }

  /** A snapshot is sent, and lies there, with no more than a whole life before it. */
  predicate SnapWritesAged(cfg: Config, k: Key, l: Local) {
    forall i :: 0 <= i < |l.snapWrites| && l.snapWrites[i].q.key == k ==>
      SnapTakes(cfg, k) && l.snapWrites[i].expiresAt <= l.now + cfg.snapTtlMs(k)
  }

  ghost predicate LocalAged(ks: iset<Key>, cfg: Config, k: Key, bound: int, l: Local) {
    MemAged(ks, cfg, k, bound, l) && SnapWritesAged(cfg, k, l)
  }

  predicate SnapAged(cfg: Config, k: Key, s: State) {
    var t := BuildDashboardCacheKey(k);
    t in s.snaps ==> SnapTakes(cfg, k) && s.snaps[t].expiresAt <= s.local.now + cfg.snapTtlMs(k)
  }

  predicate RowsAged(cfg: Config, s: State) {
    forall t :: t in s.table ==> s.table[t].expiresAt == s.table[t].refreshedAt + cfg.tableTtlMs(s.table[t].dims)
  }

  // ---------------------------------------------------------------- what requests hold

  predicate FromTable(source: Source) { source.TableFresh? || source.TableStale? || source.TableDims? }

  ghost predicate FoundAged(ks: iset<Key>, cfg: Config, k: Key, bound: int, source: Source, f: Found) {
    if FromTable(source) then
      (f.readAt < f.until ==> f.until <= f.origin + bound)
      && (f.readAt >= f.until ==> StaleRow(ks, cfg, k) && f.readAt <= f.origin + cfg.maxStaleMs(k))
    else SnapTakes(cfg, k) && f.until <= f.readAt + cfg.snapTtlMs(k)
  }

  /** An answer without a refresh: of bounded age, or from a snapshot under the settings that allow it. */
  ghost predicate FillAged(ks: iset<Key>, cfg: Config, k: Key, bound: int, f: Fill, at: int, ordered: bool) {
    || (AgeIn(cfg, k, bound, f, at) && (!HadTime(f) ==> StaleRow(ks, cfg, k) && (cfg.readonly || RowTtl(cfg, k) > cfg.nearMs(k))))
    || (SnapTakes(cfg, k) && (HadTime(f) ==> cfg.readonly || cfg.snapTtlMs(k) > cfg.nearMs(k))
        && (!HadTime(f) ==> cfg.readonly || (cfg.ttlMs(k) > cfg.nearMs(k) && ordered)))
  }

  ghost predicate AnswerAged(ks: iset<Key>, cfg: Config, k: Key, bound: int, refreshPending: bool, fill: Option<Fill>, at: int,
      ordered: bool) {
    !refreshPending && fill.Some? ==> FillAged(ks, cfg, k, bound, fill.value, at, ordered)
  }

  ghost predicate PcAged(ks: iset<Key>, cfg: Config, k: Key, bound: int, pc: Pc, ordered: bool) {
    match pc
    case Answered(i, Some(f)) => i < |Walk(cfg, k)| ==> FoundAged(ks, cfg, k, bound, Walk(cfg, k)[i].source, f)
    case Done(Served(_, refreshPending, fill), at) => AnswerAged(ks, cfg, k, bound, refreshPending, fill, at, ordered)
    case _ => true
  }

  ghost predicate ReqsAged(ks: iset<Key>, cfg: Config, k: Key, bound: int, reqs: seq<Req>, ordered: bool) {
    forall r :: 0 <= r < |reqs| && reqs[r].q.key == k ==> PcAged(ks, cfg, k, bound, reqs[r].pc, ordered)
  }

  ghost predicate Aged(ks: iset<Key>, cfg: Config, k: Key, bound: int, s: State) {
    && k in ks && RowsWithin(ks, cfg, k, bound)
    && LocalAged(ks, cfg, k, bound, s.local) && SnapAged(cfg, k, s) && RowsAged(cfg, s)
    && ReqsAged(ks, cfg, k, bound, s.reqs, Ordered(s.local))
  }

  // ---------------------------------------------------------------- the process

  /** Time may pass, and refreshes may be ordered. */
  predicate Goes(l: Local, l': Local) { l.now <= l'.now && (Ordered(l) ==> Ordered(l')) }

  /** Memory is left as it is for this text, and nothing is sent to its snapshot. */
  predicate Leaves(l: Local, l': Local, t: string) {
    Goes(l, l') && l'.snapWrites == l.snapWrites && (t in l'.mem ==> t in l.mem && l'.mem[t] == l.mem[t])
  }

  lemma LeftAged(ks: iset<Key>, cfg: Config, k: Key, bound: int, l: Local, l': Local)
    requires LocalAged(ks, cfg, k, bound, l) && Leaves(l, l', BuildDashboardCacheKey(k))
    ensures LocalAged(ks, cfg, k, bound, l')
  {
  }

  lemma SyncAged(ks: iset<Key>, cfg: Config, k: Key, bound: int, l: Local, q: Query, v: Val, origin: int)
    requires LocalAged(ks, cfg, k, bound, l)
    ensures var l' := SyncSnapshotWrite(cfg, l, q, v, origin);
      LocalAged(ks, cfg, k, bound, l') && l'.now == l.now && l'.tasks == l.tasks && l'.mem == l.mem && l'.inflight == l.inflight
  {
  }

  lemma SetAged(ks: KeySet, cfg: Config, k: Key, bound: int, l: Local, q: Query, v: Val, ttl: int, fill: Fill)
    requires LocalAged(ks, cfg, k, bound, l) && Good(ks, q) && k in ks
    requires q.key == k ==> EntryAged(ks, cfg, k, bound, MemEntry(v, l.now + ttl, ttl, fill), Ordered(l))
    ensures LocalAged(ks, cfg, k, bound, CacheSet(l, q.cacheKey, v, ttl, fill))
  {
    if q.cacheKey == BuildDashboardCacheKey(k) { OneOwner(ks, q, QueryOf(k)); }
  }

  /** A loader's value: as old as memory lets it get. */
  lemma FreshAged(ks: iset<Key>, cfg: Config, k: Key, bound: int, l: Local, v: Val, ttl: Ttl, ordered: bool)
    requires ttl <= Longest(cfg, k)
    ensures EntryAged(ks, cfg, k, bound, MemEntry(v, l.now + ttl, ttl, FreshFill(l, ttl)), ordered)
    ensures AnswerAged(ks, cfg, k, bound, false, Some(FreshFill(l, ttl)), l.now, ordered)
  {
  }

  lemma PersistAged(ks: KeySet, cfg: Config, k: Key, bound: int, l: Local, q: Query, v: Val, ttl: Ttl)
    requires LocalAged(ks, cfg, k, bound, l) && Good(ks, q) && k in ks && (q.key == k ==> ttl <= Longest(cfg, k))
    ensures var l' := PersistDashboardCaches(cfg, l, q, v, ttl);
      LocalAged(ks, cfg, k, bound, l') && l'.now == l.now && l'.tasks == l.tasks
  {
    if q.key == k { FreshAged(ks, cfg, k, bound, l, v, ttl, Ordered(l)); }
    SetAged(ks, cfg, k, bound, l, q, v, ttl, FreshFill(l, ttl));
    var l1 := CacheSet(l, q.cacheKey, v, ttl, FreshFill(l, ttl));
    var l2 := if cfg.tableEnabled then l1.(tableWrites := l1.tableWrites + [TableWrite(q, v)]) else l1;
    LeftAged(ks, cfg, k, bound, l1, l2);
    SyncAged(ks, cfg, k, bound, l2, q, v, l.now);
  }

  lemma ScheduleAged(ks: iset<Key>, cfg: Config, k: Key, bound: int, l: Local, q: Query, owner: nat)
    requires LocalAged(ks, cfg, k, bound, l) && FlightOk(l)
    ensures var l' := Schedule(cfg, l, q, owner);
      LocalAged(ks, cfg, k, bound, l') && l'.now == l.now && Goes(l, l') && (cfg.readonly || Ordered(l')) && l'.mem == l.mem
  {
    LeftAged(ks, cfg, k, bound, l, Schedule(cfg, l, q, owner));
  }

  /** An answer from a live entry, without a refresh. */
  lemma MemoryAnswerAged(ks: iset<Key>, cfg: Config, k: Key, bound: int, e: MemEntry, now: int, ordered: bool)
    requires EntryAged(ks, cfg, k, bound, e, ordered) && now <= e.exp && (cfg.readonly || !Near(cfg, k, e.ttlMs))
    ensures FillAged(ks, cfg, k, bound, e.fill, now, ordered)
  {
  }

  lemma EmitMemoryAged(ks: iset<Key>, cfg: Config, k: Key, bound: int, l: Local, q: Query, owner: nat)
    requires LocalAged(ks, cfg, k, bound, l) && FlightOk(l)
    requires LiveEntry(l, q.cacheKey).Some? && q.cacheKey == BuildDashboardCacheKey(q.key)
    ensures var a := EmitMemory(cfg, l, q, LiveEntry(l, q.cacheKey).value, owner);
      && LocalAged(ks, cfg, k, bound, a.local) && Goes(l, a.local) && a.local.now == l.now
      && (q.key == k && !cfg.readonly ==> AnswerAged(ks, cfg, k, bound, a.refreshPending, a.fill, l.now, Ordered(a.local)))
  {
    var e := LiveEntry(l, q.cacheKey).value;
    SyncAged(ks, cfg, k, bound, l, q, e.val, e.fill.origin);
    ScheduleAged(ks, cfg, k, bound, SyncSnapshotWrite(cfg, l, q, e.val, e.fill.origin), q, owner);
    if q.key == k && !cfg.readonly && !Near(cfg, k, e.ttlMs) { MemoryAnswerAged(ks, cfg, k, bound, e, l.now, Ordered(l)); }
  }

  lemma EmitPendingAged(ks: iset<Key>, cfg: Config, k: Key, bound: int, l: Local, q: Query, owner: nat)
    requires LocalAged(ks, cfg, k, bound, l) && FlightOk(l) && !cfg.readonly && q.cacheKey == BuildDashboardCacheKey(q.key)
    ensures var a := EmitTrendPending(cfg, l, q, owner);
      && LocalAged(ks, cfg, k, bound, a.local) && Goes(l, a.local) && a.local.now == l.now
      && (q.key == k ==> AnswerAged(ks, cfg, k, bound, a.refreshPending, a.fill, l.now, Ordered(a.local)))
  {
    ScheduleFlies(cfg, l, q, owner);
    ScheduleAged(ks, cfg, k, bound, l, q, owner);
    var l1 := if q.cacheKey in l.inflight then l else Schedule(cfg, l, q, owner);
    var e, l2 := LiveEntry(l1, q.cacheKey), AfterGet(l1, q.cacheKey);
    AfterGetFlies(l1, q.cacheKey);
    LeftAged(ks, cfg, k, bound, l1, l2);
    if e.Some? && NonNull(e.value.val) && HasData(e.value.val) {
      EmitMemoryAged(ks, cfg, k, bound, l2, q, owner);
    } else {
      LeftAged(ks, cfg, k, bound, l2, MarkPending(cfg, l2, q.cacheKey));
    }
  }

  // ---------------------------------------------------------------- requests

  lemma LaterAged(ks: iset<Key>, cfg: Config, k: Key, bound: int, reqs: seq<Req>, ordered: bool, ordered': bool)
    requires ReqsAged(ks, cfg, k, bound, reqs, ordered) && (ordered ==> ordered')
    ensures ReqsAged(ks, cfg, k, bound, reqs, ordered')
  {
  }

  lemma SetPcAged(ks: iset<Key>, cfg: Config, k: Key, bound: int, s: State, r: nat, pc: Pc)
    requires Aged(ks, cfg, k, bound, s) && r < |s.reqs|
    requires s.reqs[r].q.key == k ==> PcAged(ks, cfg, k, bound, pc, Ordered(s.local))
    ensures Aged(ks, cfg, k, bound, SetPc(s, r, pc))
  {
  }

  lemma ReplyAged(ks: iset<Key>, cfg: Config, k: Key, bound: int, s: State, r: nat, a: Answer)
    requires Aged(ks, cfg, k, bound, s) && r < |s.reqs| && LocalAged(ks, cfg, k, bound, a.local) && Goes(s.local, a.local)
    requires s.reqs[r].q.key == k ==> AnswerAged(ks, cfg, k, bound, a.refreshPending, a.fill, a.local.now, Ordered(a.local))
    ensures Aged(ks, cfg, k, bound, Reply(s, r, a))
  {
    LaterAged(ks, cfg, k, bound, s.reqs, Ordered(s.local), Ordered(a.local));
    SetPcAged(ks, cfg, k, bound, s.(local := a.local), r, Done(Served(a.val, a.refreshPending, a.fill), a.local.now));
  }

  lemma ProceedAged(ks: iset<Key>, cfg: Config, k: Key, bound: int, s: State, r: nat, i: nat)
    requires Aged(ks, cfg, k, bound, s) && FlightOk(s.local) && r < |s.reqs|
    requires s.reqs[r].q.cacheKey == BuildDashboardCacheKey(s.reqs[r].q.key)
    ensures Aged(ks, cfg, k, bound, Proceed(cfg, s, r, i))
  {
    var q := s.reqs[r].q;
    if i < |Walk(cfg, q.key)| {
      SetPcAged(ks, cfg, k, bound, s, r, Reading(i));
    } else if cfg.readonly {
      LeftAged(ks, cfg, k, bound, s.local, Hint(s.local, q.cacheKey));
      ReplyAged(ks, cfg, k, bound, s, r, Answer(Hint(s.local, q.cacheKey), MissShape, true, None));
    } else if TrendEndpoint(q.key.endpoint) {
      EmitPendingAged(ks, cfg, k, bound, s.local, q, r);
      ReplyAged(ks, cfg, k, bound, s, r, EmitTrendPending(cfg, s.local, q, r));
    } else {
      SetPcAged(ks, cfg, k, bound, s, r, Loading);
    }
  }

  lemma AskedMemoryAged(ks: iset<Key>, cfg: Config, k: Key, bound: int, l: Local, q: Query, r: nat)
    requires LocalAged(ks, cfg, k, bound, l) && FlightOk(l)
    requires LiveEntry(l, q.cacheKey).Some? && q.cacheKey == BuildDashboardCacheKey(q.key)
    ensures var a := MemoryAnswer(cfg, l, q, LiveEntry(l, q.cacheKey).value, r);
      && LocalAged(ks, cfg, k, bound, a.local) && Goes(l, a.local) && a.local.now == l.now
      && (q.key == k ==> AnswerAged(ks, cfg, k, bound, a.refreshPending, a.fill, l.now, Ordered(a.local)))
  {
    var e := LiveEntry(l, q.cacheKey).value;
    if cfg.readonly {
      SyncAged(ks, cfg, k, bound, l, q, e.val, e.fill.origin);
      if q.key == k { MemoryAnswerAged(ks, cfg, k, bound, e, l.now, Ordered(l)); }
    } else {
      EmitMemoryAged(ks, cfg, k, bound, l, q, r);
    }
  }

  lemma ArrivalAged(ks: iset<Key>, cfg: Config, k: Key, bound: int, s: State, q: Req)
    requires Aged(ks, cfg, k, bound, s) && q.pc.Reading?
    ensures Aged(ks, cfg, k, bound, s.(reqs := s.reqs + [q]))
  {
  }

  lemma BeginAged(ks: iset<Key>, cfg: Config, k: Key, bound: int, s: State, info: Request, q: Query)
    requires Aged(ks, cfg, k, bound, s) && FlightOk(s.local) && q.cacheKey == BuildDashboardCacheKey(q.key)
    ensures Aged(ks, cfg, k, bound, Begin(cfg, s, info, q))
  {
    var r := |s.reqs|;
    var s1 := s.(reqs := s.reqs + [Req(q, info.pipeline, info.bypassParam, Reading(0))]);
    ArrivalAged(ks, cfg, k, bound, s, Req(q, info.pipeline, info.bypassParam, Reading(0)));
    if Bypasses(cfg, info.pipeline, info.bypassParam) {
      SetPcAged(ks, cfg, k, bound, s1, r, Loading);
    } else {
      var e, l2 := LiveEntry(s1.local, q.cacheKey), AfterGet(s1.local, q.cacheKey);
      LeftAged(ks, cfg, k, bound, s1.local, l2);
      AfterGetFlies(s1.local, q.cacheKey);
      if e.Some? && MemoryCounts(cfg, q.key, e.value) {
        AskedMemoryAged(ks, cfg, k, bound, l2, q, r);
        ReplyAged(ks, cfg, k, bound, s1.(local := l2), r, MemoryAnswer(cfg, l2, q, e.value, r));
      } else {
        ProceedAged(ks, cfg, k, bound, s1.(local := l2), r, 0);
      }
    }
  }

  // ---------------------------------------------------------------- what a tier gives

  predicate ProbeOfWalk(cfg: Config, k: Key, p: Probe) {
    && (FromTable(p.source) ==> cfg.tableEnabled)
    && (p.source.TableStale? || p.source.TableDims? ==> (cfg.readonly || TrendEndpoint(k.endpoint)) && p.refresh.Always?)
    && (p.source.TableDims? ==> TrendEndpoint(k.endpoint))
    && (p.source.SnapAny? ==> p.refresh.Always?)
    && (p.source.SnapFresh? ==> if cfg.readonly then p.refresh.Never? else p.refresh.IfNear?)
    && (p.source.TableFresh? ==> p.refresh.Never? || p.refresh.Always?)
  }

  lemma WalkProbes(cfg: Config, k: Key, i: nat)
    requires i < |Walk(cfg, k)|
    ensures ProbeOfWalk(cfg, k, Walk(cfg, k)[i])
  {
  }

  /** The entry made of what a tier gave. */
  function EntryFrom(cfg: Config, k: Key, p: Probe, f: Found, now: int): MemEntry {
    var ttl := MemTtl(cfg, k, p, f.ttlMs);
    MemEntry(f.val, now + ttl, ttl, Fill(f.origin, f.until, f.readAt, now, p.refresh.Always?))
  }

  predicate OrdersRefresh(cfg: Config, k: Key, p: Probe, f: Found) {
    p.refresh.Always? || (p.refresh.IfNear? && Near(cfg, k, f.ttlMs))
  }

  lemma RowEntryAged(ks: iset<Key>, cfg: Config, k: Key, bound: int, p: Probe, f: Found, now: int)
    requires FoundAged(ks, cfg, k, bound, p.source, f) && FoundOk(f, now) && FromTable(p.source)
    ensures var e := EntryFrom(cfg, k, p, f, now); RowFed(ks, cfg, k, bound, e.fill, e.ttlMs, e.exp)
  {
  }

  lemma SnapEntryAged(ks: iset<Key>, cfg: Config, k: Key, bound: int, p: Probe, f: Found, now: int, ordered: bool)
    requires FoundAged(ks, cfg, k, bound, p.source, f) && FoundOk(f, now) && !FromTable(p.source) && ProbeOfWalk(cfg, k, p)
    requires p.source.SnapFresh? ==> f.ttlMs > 0
    requires OrdersRefresh(cfg, k, p, f) ==> cfg.readonly || ordered
    ensures var e := EntryFrom(cfg, k, p, f, now); SnapFed(cfg, k, e.fill, e.ttlMs, ordered)
  {
  }

  lemma TierAnswerAged(ks: iset<Key>, cfg: Config, k: Key, bound: int, p: Probe, f: Found, now: int, ordered: bool)
    requires FoundAged(ks, cfg, k, bound, p.source, f) && FoundOk(f, now) && ProbeOfWalk(cfg, k, p)
    requires ReadsFresh(p.source) ==> f.ttlMs > 0
    requires !OrdersRefresh(cfg, k, p, f)
    ensures FillAged(ks, cfg, k, bound, EntryFrom(cfg, k, p, f, now).fill, now, ordered)
  {
  }

  lemma EntryFromAged(ks: iset<Key>, cfg: Config, k: Key, bound: int, p: Probe, f: Found, now: int, ordered: bool)
    requires FoundAged(ks, cfg, k, bound, p.source, f) && FoundOk(f, now) && ProbeOfWalk(cfg, k, p)
    requires ReadsFresh(p.source) ==> f.ttlMs > 0
    requires OrdersRefresh(cfg, k, p, f) ==> cfg.readonly || ordered
    ensures EntryAged(ks, cfg, k, bound, EntryFrom(cfg, k, p, f, now), ordered)
    ensures !OrdersRefresh(cfg, k, p, f) ==> FillAged(ks, cfg, k, bound, EntryFrom(cfg, k, p, f, now).fill, now, ordered)
  {
    if FromTable(p.source) {
      RowEntryAged(ks, cfg, k, bound, p, f, now);
    } else {
      SnapEntryAged(ks, cfg, k, bound, p, f, now, ordered);
    }
    if !OrdersRefresh(cfg, k, p, f) { TierAnswerAged(ks, cfg, k, bound, p, f, now, ordered); }
  }

  /** Whether the refresh is ordered before or after memory and the snapshot are set is all one. */
  function HitAfter(cfg: Config, l: Local, q: Query, p: Probe, f: Found): Local {
    var e := EntryFrom(cfg, q.key, p, f, l.now);
    var l1 := CacheSet(l, q.cacheKey, f.val, e.ttlMs, e.fill);
    if p.warms then SyncSnapshotWrite(cfg, l1, q, f.val, f.origin) else l1
  }

  lemma ScheduleCommutes(cfg: Config, l: Local, q: Query, r: nat, v: Val, ttl: int, fill: Fill, origin: int)
    ensures CacheSet(Schedule(cfg, l, q, r), q.cacheKey, v, ttl, fill)
      == Schedule(cfg, CacheSet(l, q.cacheKey, v, ttl, fill), q, r)
    ensures SyncSnapshotWrite(cfg, Schedule(cfg, l, q, r), q, v, origin)
      == Schedule(cfg, SyncSnapshotWrite(cfg, l, q, v, origin), q, r)
    ensures Schedule(cfg, l, q, r).now == l.now
  {
  }

  lemma HitCommutes(cfg: Config, l: Local, q: Query, p: Probe, f: Found, r: nat)
    ensures UseHit(cfg, l, q, p, f, r).local
      == HitAfter(cfg, if OrdersRefresh(cfg, q.key, p, f) then Schedule(cfg, l, q, r) else l, q, p, f)
  {
    if OrdersRefresh(cfg, q.key, p, f) {
      var e := EntryFrom(cfg, q.key, p, f, l.now);
      ScheduleCommutes(cfg, l, q, r, f.val, e.ttlMs, e.fill, f.origin);
      ScheduleCommutes(cfg, CacheSet(l, q.cacheKey, f.val, e.ttlMs, e.fill), q, r, f.val, e.ttlMs, e.fill, f.origin);
    }
  }

  lemma HitAfterAged(ks: KeySet, cfg: Config, k: Key, bound: int, l: Local, q: Query, p: Probe, f: Found)
    requires LocalAged(ks, cfg, k, bound, l) && Good(ks, q) && k in ks
    requires q.key == k ==> EntryAged(ks, cfg, k, bound, EntryFrom(cfg, k, p, f, l.now), Ordered(l))
    ensures LocalAged(ks, cfg, k, bound, HitAfter(cfg, l, q, p, f)) && HitAfter(cfg, l, q, p, f).now == l.now
    ensures HitAfter(cfg, l, q, p, f).tasks == l.tasks
  {
    var e := EntryFrom(cfg, q.key, p, f, l.now);
    SetAged(ks, cfg, k, bound, l, q, f.val, e.ttlMs, e.fill);
    SyncAged(ks, cfg, k, bound, CacheSet(l, q.cacheKey, f.val, e.ttlMs, e.fill), q, f.val, f.origin);
  }

  /** A tier's value is put into memory and perhaps refreshed. */
  lemma UseHitAged(ks: KeySet, cfg: Config, k: Key, bound: int, l: Local, q: Query, p: Probe, f: Found, r: nat)
    requires LocalAged(ks, cfg, k, bound, l) && FlightOk(l) && Good(ks, q) && k in ks && FoundOk(f, l.now)
    requires q.key == k ==> FoundAged(ks, cfg, k, bound, p.source, f) && ProbeOfWalk(cfg, k, p)
    requires ReadsFresh(p.source) ==> f.ttlMs > 0
    ensures var a := UseHit(cfg, l, q, p, f, r);
      && LocalAged(ks, cfg, k, bound, a.local) && Goes(l, a.local) && a.local.now == l.now
      && (q.key == k ==> AnswerAged(ks, cfg, k, bound, a.refreshPending, a.fill, l.now, Ordered(a.local)))
  {
    var l0 := if OrdersRefresh(cfg, q.key, p, f) then Schedule(cfg, l, q, r) else l;
    ScheduleAged(ks, cfg, k, bound, l, q, r);
    if q.key == k { EntryFromAged(ks, cfg, k, bound, p, f, l.now, Ordered(l0)); }
    HitCommutes(cfg, l, q, p, f, r);
    HitAfterAged(ks, cfg, k, bound, l0, q, p, f);
  }

  lemma ResumeAged(ks: KeySet, cfg: Config, k: Key, bound: int, s: State, r: nat)
    requires Aged(ks, cfg, k, bound, s) && Timed(ks, cfg, s) && FlightOk(s.local) && HasAnswer(cfg, s, r) && Good(ks, s.reqs[r].q)
    ensures Aged(ks, cfg, k, bound, Resume(cfg, s, r))
  {
    var q := s.reqs[r];
    var p := ProbeOf(cfg, s, r);
    if ProbeCounts(p, q.pc.found) {
      assert PcTimed(cfg, q, s.local.now);
      WalkProbes(cfg, q.q.key, q.pc.i);
      UseHitAged(ks, cfg, k, bound, s.local, q.q, p, q.pc.found.value, r);
      ReplyAged(ks, cfg, k, bound, s, r, UseHit(cfg, s.local, q.q, p, q.pc.found.value, r));
    } else {
      ProceedAged(ks, cfg, k, bound, s, r, q.pc.i + 1);
    }
  }

  /** A row read for `k`. */
  lemma RowFoundAged(ks: KeySet, cfg: Config, k: Key, bound: int, s: State, t: string, source: Source)
    requires RowsAged(cfg, s) && RowsWithin(ks, cfg, k, bound) && FromTable(source)
    requires t in s.table && GivesRow(ks, s.table[t].dims, k)
    requires s.table[t].expiresAt <= s.local.now ==>
      s.table[t].refreshedAt > s.local.now - cfg.maxStaleMs(k) && cfg.tableEnabled && (cfg.readonly || TrendEndpoint(k.endpoint))
    ensures FoundAged(ks, cfg, k, bound, source, RowFound(s, t))
  {
    var row := s.table[t];
    assert cfg.tableTtlMs(row.dims) <= bound;
    if row.expiresAt <= s.local.now { assert cfg.tableTtlMs(row.dims) < cfg.maxStaleMs(k); }
  }

  lemma SourceAged(ks: KeySet, cfg: Config, k: Key, bound: int, s: State, p: Probe, pick: string)
    requires Aged(ks, cfg, k, bound, s) && TableOk(ks, s) && ProbeOfWalk(cfg, k, p)
    ensures var f := ReadSource(cfg, s, QueryOf(k), p.source, pick); f.Some? ==> FoundAged(ks, cfg, k, bound, p.source, f.value)
  {
    var t := if p.source.TableDims? then pick else BuildDashboardCacheKey(k);
    if FromTable(p.source) && ReadSource(cfg, s, QueryOf(k), p.source, pick).Some? {
      if !p.source.TableDims? { OneOwner(ks, QueryOf(k), Query(s.table[t].dims, t)); }
      RowFoundAged(ks, cfg, k, bound, s, t, p.source);
    }
  }

  lemma ReadAged(ks: KeySet, cfg: Config, k: Key, bound: int, s: State, r: nat, fails: bool, pick: string)
    requires Aged(ks, cfg, k, bound, s) && Sound(ks, cfg, s) && Enabled(cfg, s, ReadTier(r, fails, pick))
    ensures Aged(ks, cfg, k, bound, ReadStep(cfg, s, r, fails, pick))
  {
    var q, i := s.reqs[r].q, s.reqs[r].pc.i;
    var p := Walk(cfg, q.key)[i];
    WalkProbes(cfg, q.key, i);
    assert Good(ks, q);
    if q.key == k { SourceAged(ks, cfg, k, bound, s, p, pick); }
    SetPcAged(ks, cfg, k, bound, s, r, Answered(i, if fails then None else ReadSource(cfg, s, q, p.source, pick)));
  }

  // ---------------------------------------------------------------- loaders, writes and time

  /** Only the process changed. */
  lemma LocalStepAged(ks: iset<Key>, cfg: Config, k: Key, bound: int, s: State, l: Local)
    requires Aged(ks, cfg, k, bound, s) && LocalAged(ks, cfg, k, bound, l) && Goes(s.local, l)
    ensures Aged(ks, cfg, k, bound, s.(local := l))
  {
    LaterAged(ks, cfg, k, bound, s.reqs, Ordered(s.local), Ordered(l));
  }

  lemma LoadAged(ks: KeySet, cfg: Config, k: Key, bound: int, s: State, r: nat, o: Outcome)
    requires Aged(ks, cfg, k, bound, s) && r < |s.reqs| && Good(ks, s.reqs[r].q)
    ensures Aged(ks, cfg, k, bound, FinishLoad(cfg, s, r, o))
  {
    var q := s.reqs[r].q;
    if o.Throws? {
      SetPcAged(ks, cfg, k, bound, s, r, Done(Errored, s.local.now));
    } else {
      var v, ttl := Tag(o, q.key), cfg.ttlMs(q.key);
      PersistAged(ks, cfg, k, bound, s.local, q, v, ttl);
      FreshAged(ks, cfg, q.key, bound, s.local, v, ttl, Ordered(s.local));
      var l := PersistDashboardCaches(cfg, s.local, q, v, ttl);
      ReplyAged(ks, cfg, k, bound, s, r, Answer(l, v, false, Some(FreshFill(s.local, ttl))));
    }
  }

  lemma TaskAged(ks: KeySet, cfg: Config, k: Key, bound: int, s: State, t: nat, o: Outcome)
    requires Aged(ks, cfg, k, bound, s) && t < |s.local.tasks| && Good(ks, s.local.tasks[t].q)
    ensures Aged(ks, cfg, k, bound, FinishTask(cfg, s, t, o))
  {
    var q, l := s.local.tasks[t].q, FinishTask(cfg, s, t, o).local;
    if !o.Throws? {
      PersistAged(ks, cfg, k, bound, s.local, q, Tag(o, q.key), cfg.ttlMs(q.key));
      LeftAged(ks, cfg, k, bound, PersistDashboardCaches(cfg, s.local, q, Tag(o, q.key), cfg.ttlMs(q.key)), l);
    } else {
      LeftAged(ks, cfg, k, bound, s.local, l);
    }
    LocalStepAged(ks, cfg, k, bound, s, l);
  }

  lemma JobAged(ks: KeySet, cfg: Config, k: Key, bound: int, s: State, j: nat, o: Outcome)
    requires Aged(ks, cfg, k, bound, s) && j < |s.jobs| && Good(ks, s.jobs[j].q)
    ensures Aged(ks, cfg, k, bound, FinishJob(cfg, s, j, o))
  {
    var q := s.jobs[j].q;
    if !o.Throws? {
      PersistAged(ks, cfg, k, bound, s.local, q, Tag(o, q.key), cfg.readonlyTtlMs(q.key));
      LocalStepAged(ks, cfg, k, bound, s, FinishJob(cfg, s, j, o).local);
    }
  }

  lemma RowWrittenAged(ks: KeySet, cfg: Config, k: Key, bound: int, s: State, i: nat)
    requires Aged(ks, cfg, k, bound, s) && Sound(ks, cfg, s) && i < |s.local.tableWrites|
    ensures Aged(ks, cfg, k, bound, WriteRow(cfg, s, i))
  {
    var w, s' := s.local.tableWrites[i], WriteRow(cfg, s, i);
    if w.q.cacheKey in s.table { OneOwner(ks, w.q, Query(s.table[w.q.cacheKey].dims, w.q.cacheKey)); }
    LeftAged(ks, cfg, k, bound, s.local, s'.local);
    LocalStepAged(ks, cfg, k, bound, s, s'.local);
  }

  lemma SnapWriteGoneAged(ks: iset<Key>, cfg: Config, k: Key, bound: int, l: Local, i: nat)
    requires LocalAged(ks, cfg, k, bound, l) && i < |l.snapWrites|
    ensures LocalAged(ks, cfg, k, bound, l.(snapWrites := Without(l.snapWrites, i)))
  {
  }

  lemma SnapFileAged(ks: KeySet, cfg: Config, k: Key, s: State, w: SnapWrite)
    requires SnapAged(cfg, k, s) && Good(ks, w.q) && k in ks
    requires w.q.key == k ==> SnapTakes(cfg, k) && w.expiresAt <= s.local.now + cfg.snapTtlMs(k)
    ensures SnapAged(cfg, k, s.(snaps := s.snaps[w.q.cacheKey := SnapFile(w.val, w.expiresAt, w.origin)]))
  {
    if w.q.cacheKey == BuildDashboardCacheKey(k) { OneOwner(ks, w.q, QueryOf(k)); }
  }

  lemma SnapWrittenAged(ks: KeySet, cfg: Config, k: Key, bound: int, s: State, i: nat)
    requires Aged(ks, cfg, k, bound, s) && i < |s.local.snapWrites| && Good(ks, s.local.snapWrites[i].q)
    ensures Aged(ks, cfg, k, bound, WriteSnap(s, i))
  {
    var w := s.local.snapWrites[i];
    SnapFileAged(ks, cfg, k, s, w);
    SnapWriteGoneAged(ks, cfg, k, bound, s.local, i);
    var s1 := s.(snaps := s.snaps[w.q.cacheKey := SnapFile(w.val, w.expiresAt, w.origin)]);
    LocalStepAged(ks, cfg, k, bound, s1, WriteSnap(s, i).local);
  }

  /** Neither the walk of a request nor what a loader gives or a write brings. */
  predicate Idle(e: Event) {
    match e
    case TaskStarts(_) | TaskSettles(_) | JobStarts(_) | JobChecked(_, _) | JobSettles(_) => true
    case TableWriteLost(_) | RowPurged(_) | SnapRemoved(_) | EntryForgotten(_) | HintsConsumed | Tick(_) => true
    case _ => false
  }

  lemma IdleLeaves(cfg: Config, s: State, e: Event, t: string)
    requires Idle(e) && Enabled(cfg, s, e)
    ensures var s' := Apply(cfg, s, e);
      && Leaves(s.local, s'.local, t) && s'.reqs == s.reqs
      && (s'.table == s.table || (e.RowPurged? && s'.table == s.table - {e.cacheKey}))
      && (s'.snaps == s.snaps || (e.SnapRemoved? && s'.snaps == s.snaps - {e.cacheKey}))
  {
  }

  lemma IdleAged(ks: iset<Key>, cfg: Config, k: Key, bound: int, s: State, e: Event)
    requires Aged(ks, cfg, k, bound, s) && Idle(e) && Enabled(cfg, s, e)
    ensures Aged(ks, cfg, k, bound, Apply(cfg, s, e))
  {
    var s' := Apply(cfg, s, e);
    IdleLeaves(cfg, s, e, BuildDashboardCacheKey(k));
    LeftAged(ks, cfg, k, bound, s.local, s'.local);
    LocalStepAged(ks, cfg, k, bound, s, s'.local);
  }

  lemma SnapLostAged(ks: iset<Key>, cfg: Config, k: Key, bound: int, s: State, i: nat)
    requires Aged(ks, cfg, k, bound, s) && i < |s.local.snapWrites|
    ensures Aged(ks, cfg, k, bound, s.(local := s.local.(snapWrites := Without(s.local.snapWrites, i))))
  {
    SnapWriteGoneAged(ks, cfg, k, bound, s.local, i);
    LocalStepAged(ks, cfg, k, bound, s, s.local.(snapWrites := Without(s.local.snapWrites, i)));
  }

  // ---------------------------------------------------------------- every run

  ghost predicate InOrder(ks: KeySet, cfg: Config, k: Key, bound: int, s: State) {
    Sound(ks, cfg, s) && Timed(ks, cfg, s) && FlightOk(s.local) && Aged(ks, cfg, k, bound, s)
  }

  lemma StepAged(ks: KeySet, cfg: Config, k: Key, bound: int, s: State, e: Event)
    requires InOrder(ks, cfg, k, bound, s) && Enabled(cfg, s, e) && EventIn(ks, e)
    ensures Aged(ks, cfg, k, bound, Apply(cfg, s, e))
  {
    match e
    case Arrive(info) => BeginAged(ks, cfg, k, bound, s, info, QueryOf(info.key));
    case ReadTier(r, fails, pick) => ReadAged(ks, cfg, k, bound, s, r, fails, pick);
    case Continue(r) => ResumeAged(ks, cfg, k, bound, s, r);
    case LoaderEnds(r, o) => LoadAged(ks, cfg, k, bound, s, r, o);
    case TaskEnds(t, o) => TaskAged(ks, cfg, k, bound, s, t, o);
    case JobEnds(j, o) => JobAged(ks, cfg, k, bound, s, j, o);
    case TableWritten(i) => RowWrittenAged(ks, cfg, k, bound, s, i);
    case SnapWritten(i) =>
      assert Good(ks, s.local.snapWrites[i].q);
      SnapWrittenAged(ks, cfg, k, bound, s, i);
    case SnapWriteLost(i) => SnapLostAged(ks, cfg, k, bound, s, i);
    case _ => IdleAged(ks, cfg, k, bound, s, e);
  }

  lemma {:induction false} RunAged(ks: KeySet, cfg: Config, k: Key, bound: int, s: State, events: seq<Event>, t: State)
    requires InOrder(ks, cfg, k, bound, s) && Run(cfg, s, events, t) && EventsIn(ks, events)
    ensures InOrder(ks, cfg, k, bound, t)
    decreases |events|
  {
    if events != [] {
      StepSound(ks, cfg, s, events[0]);
      StepTimed(ks, cfg, s, events[0]);
      StepFlies(cfg, s, events[0]);
      StepAged(ks, cfg, k, bound, s, events[0]);
      RunAged(ks, cfg, k, bound, Apply(cfg, s, events[0]), events[1..], t);
    }
  }

  /** What an answer of a reachable state tells of its age when it orders no refresh. */
  lemma ReachedAged(ks: KeySet, cfg: Config, k: Key, bound: int, start: int, s: State, r: nat)
    requires Reaches(cfg, ks, start, s) && k in ks && RowsWithin(ks, cfg, k, bound)
    requires r < |s.reqs| && s.reqs[r].q.key == k
    requires s.reqs[r].pc.Done? && s.reqs[r].pc.resp.Served? && !s.reqs[r].pc.resp.refreshPending
    ensures s.reqs[r].pc.resp.fill.Some?
    ensures FillAged(ks, cfg, k, bound, s.reqs[r].pc.resp.fill.value, s.reqs[r].pc.at, Ordered(s.local))
  {
    var events :| Run(cfg, Init(start), events, s) && EventsIn(ks, events);
    RunAged(ks, cfg, k, bound, Init(start), events, s);
    assert PcTimed(cfg, s.reqs[r], s.local.now);
    assert PcAged(ks, cfg, k, bound, s.reqs[r].pc, Ordered(s.local));
  }
}
