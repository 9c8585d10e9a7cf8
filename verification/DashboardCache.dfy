/**
 * The dashboard cache as a step system. A request walks the tiers; every read of the table or of a snapshot file is a
 * step of its own, and what happens between two such reads, in the process, is one step. Loaders finish or fail, sent
 * writes are carried out late, in any order, or lost, files and rows are cleaned up, and time passes.
 */
module DashboardCache {
  import opened Options
  import opened CacheKey
  import opened DashboardMemory
  import PrecomputeHints

  // ---------------------------------------------------------------- state

  /** `dims` are the dimension columns, which an update of the row leaves as they were first inserted. */
  datatype TableRow = TableRow(dims: Key, val: Val, refreshedAt: int, expiresAt: int)

  datatype SnapFile = SnapFile(val: Val, expiresAt: int, origin: int)

  /** `pipeline`: precompute, warm-up or scheduler request; `bypassParam`: one of the bypass, force or debug parameters. */
  datatype Request = Request(key: Key, pipeline: bool, bypassParam: bool)

  /** What a tier gave: the value, the time it has left, when it was read, until when it is good, and since when it exists. */
  datatype Found = Found(val: Val, ttlMs: int, readAt: int, until: int, origin: int)

  datatype Response = Served(val: Val, refreshPending: bool, fill: Option<Fill>) | Errored

  datatype Pc =
    | Reading(i: nat)                           // the read of the i-th tier is under way
    | Answered(i: nat, found: Option<Found>)
    | Loading
    | Done(resp: Response, at: int)

  datatype Req = Req(q: Query, pipeline: bool, bypassParam: bool, pc: Pc)

  datatype JobPc = Checking | JobLoading | JobSettling | JobDone

  /** One precompute job. */
  datatype Job = Job(q: Query, pc: JobPc)

  /** On whose behalf a loader was called. */
  datatype Caller = ForRequest(r: nat) | ForTask(t: nat) | ForJob(j: nat)

  datatype State = State(
    local: Local,
    table: map<string, TableRow>,
    snaps: map<string, SnapFile>,
    reqs: seq<Req>,
    jobs: seq<Job>,
    jobInflight: map<string, nat>,
    calls: seq<Caller>)

  function Init(now: int): State {
    State(Local(now, map[], map[], [], map[], map[], [], []), map[], map[], [], [], map[], [])
  }

  // ---------------------------------------------------------------- the walk

  datatype Source = TableFresh | TableStale | TableDims | SnapFresh | SnapAny

  datatype Refresh = Never | IfNear | Always

  /** One tier of a walk: what is read, whether an empty payload counts, whether a hit is written to the snapshot, and what it refreshes. */
  datatype Probe = Probe(source: Source, needsData: bool, warms: bool, refresh: Refresh)

  function TrendWalk(table: bool, snap: bool): seq<Probe> {
    (if table then [Probe(TableFresh, false, true, Never)] else [])
    + (if snap then [Probe(SnapFresh, true, false, IfNear), Probe(SnapAny, false, false, Always)] else [])
    + (if table then
         [Probe(TableFresh, false, true, Always), Probe(TableStale, false, true, Always),
          Probe(TableDims, false, true, Always)]
       else [])
  }

  function PlainWalk(table: bool, snap: bool): seq<Probe> {
    (if table then [Probe(TableFresh, false, true, Never)] else [])
    + (if snap then [Probe(SnapFresh, false, false, IfNear), Probe(SnapAny, false, false, Always)] else [])
  }

  function ReadonlyTrendWalk(table: bool, snap: bool): seq<Probe> {
    (if table then [Probe(TableFresh, true, true, Never)] else [])
    + (if snap then [Probe(SnapFresh, true, false, Never), Probe(SnapAny, false, false, Always)] else [])
    + (if table then
         [Probe(TableFresh, false, false, Always), Probe(TableStale, false, false, Always),
          Probe(TableDims, false, false, Always)]
       else [])
  }

  function ReadonlyPlainWalk(table: bool, snap: bool): seq<Probe> {
    (if table then
       [Probe(TableFresh, false, true, Never), Probe(TableFresh, false, false, Always),
        Probe(TableStale, false, false, Always)]
     else [])
    + (if snap then [Probe(SnapFresh, false, false, Never), Probe(SnapAny, false, false, Always)] else [])
  }

  /** The tiers behind memory, in the order they are asked. A read that allows stale rows asks for a fresh one first. */
  function Walk(cfg: Config, k: Key): seq<Probe> {
    if cfg.readonly then
      (if TrendEndpoint(k.endpoint) then ReadonlyTrendWalk(cfg.tableEnabled, cfg.snapEnabled)
       else ReadonlyPlainWalk(cfg.tableEnabled, cfg.snapEnabled))
    else
      (if TrendEndpoint(k.endpoint) then TrendWalk(cfg.tableEnabled, cfg.snapEnabled)
       else PlainWalk(cfg.tableEnabled, cfg.snapEnabled))
  }

  /** The keys the dimension read does not tell apart. */
  predicate SameDims(a: Key, b: Key) {
    && a.endpoint == b.endpoint && a.tenant == b.tenant && a.shop == b.shop && a.market == b.market
    && a.orderFilter == b.orderFilter && a.timeRange == b.timeRange
  }

  /** A row the dimension read may return: agreeing, young enough, and none younger. */
  predicate DimsPick(cfg: Config, s: State, k: Key, pick: string) {
    && pick in s.table && SameDims(s.table[pick].dims, k)
    && s.table[pick].refreshedAt > s.local.now - cfg.maxStaleMs(k)
    && forall j :: j in s.table && SameDims(s.table[j].dims, k) ==> s.table[j].refreshedAt <= s.table[pick].refreshedAt
  }

  function FoundUntil(v: Val, until: int, now: int, origin: int): Found {
    Found(v, if until > now then until - now else 0, now, until, origin)
  }

  function RowFound(s: State, t: string): Found
    requires t in s.table
  {
    FoundUntil(s.table[t].val, s.table[t].expiresAt, s.local.now, s.table[t].refreshedAt)
  }

  function SnapFound(s: State, t: string): Found
    requires t in s.snaps
  {
    FoundUntil(s.snaps[t].val, s.snaps[t].expiresAt, s.local.now, s.snaps[t].origin)
  }

  function ReadSource(cfg: Config, s: State, q: Query, source: Source, pick: string): Option<Found> {
    var t := q.cacheKey;
    match source
    case TableFresh => if t in s.table && s.table[t].expiresAt > s.local.now then Some(RowFound(s, t)) else None
    case TableStale =>
      if t in s.table && s.table[t].refreshedAt > s.local.now - cfg.maxStaleMs(q.key) then Some(RowFound(s, t)) else None
    case TableDims => if DimsPick(cfg, s, q.key, pick) then Some(RowFound(s, pick)) else None
    case SnapFresh =>
      if SnapshotEndpoint(q.key.endpoint) && t in s.snaps && s.snaps[t].expiresAt > s.local.now then Some(SnapFound(s, t))
      else None
    case SnapAny => if SnapshotEndpoint(q.key.endpoint) && t in s.snaps then Some(SnapFound(s, t)) else None
  }

  function MemTtl(cfg: Config, k: Key, p: Probe, ttl: int): int {
    var whole := if cfg.readonly then cfg.readonlyTtlMs(k) else cfg.ttlMs(k);
    match p.source
    case SnapFresh | SnapAny =>
      if ttl > 0 then (if !cfg.readonly && cfg.nearMs(k) > ttl then cfg.nearMs(k) else ttl) else whole
    case _ =>
      if ttl > 0 then ttl else if TrendEndpoint(k.endpoint) then cfg.tableTtlMs(k) else whole
  }

  // ---------------------------------------------------------------- a request's steps

  function SetPc(s: State, r: nat, pc: Pc): State
    requires r < |s.reqs|
  {
    s.(reqs := s.reqs[r := s.reqs[r].(pc := pc)])
  }

  function Reply(s: State, r: nat, a: Answer): State
    requires r < |s.reqs|
  {
    SetPc(s.(local := a.local), r, Done(Served(a.val, a.refreshPending, a.fill), a.local.now))
  }

  /** isDashboardCacheBypass */
  predicate Bypasses(cfg: Config, pipeline: bool, bypassParam: bool) { pipeline || (!cfg.readonly && bypassParam) }

  function CallLoader(s: State, r: nat): State
    requires r < |s.reqs|
  {
    SetPc(s, r, Loading).(calls := s.calls + [ForRequest(r)])
  }

  /** Behind the last tier. */
  function Exhausted(cfg: Config, s: State, r: nat): State
    requires r < |s.reqs|
  {
    var q := s.reqs[r].q;
    if cfg.readonly then Reply(s, r, Answer(Hint(s.local, q.cacheKey), MissShape, true, None))
    else if TrendEndpoint(q.key.endpoint) then Reply(s, r, EmitTrendPending(cfg, s.local, q, r))
    else CallLoader(s, r)
  }

  function Proceed(cfg: Config, s: State, r: nat, i: nat): State
    requires r < |s.reqs|
  {
    if i < |Walk(cfg, s.reqs[r].q.key)| then SetPc(s, r, Reading(i)) else Exhausted(cfg, s, r)
  }

  function MemoryAnswer(cfg: Config, l: Local, q: Query, e: MemEntry, r: nat): Answer {
    if cfg.readonly then Answer(SyncSnapshotWrite(cfg, l, q, e.val, e.fill.origin), e.val, false, Some(e.fill))
    else EmitMemory(cfg, l, q, e, r)
  }

  predicate MemoryCounts(cfg: Config, k: Key, e: MemEntry) {
    NonNull(e.val) && (cfg.readonly && TrendEndpoint(k.endpoint) ==> HasData(e.val))
  }

  /** The request up to its first await: `q` are its fields and the text of its key. */
  function Begin(cfg: Config, s: State, info: Request, q: Query): State {
    var r := |s.reqs|;
    var s1 := s.(reqs := s.reqs + [Req(q, info.pipeline, info.bypassParam, Reading(0))]);
    if Bypasses(cfg, info.pipeline, info.bypassParam) then CallLoader(s1, r)
    else
      var e := LiveEntry(s1.local, q.cacheKey);
      var s2 := s1.(local := AfterGet(s1.local, q.cacheKey));
      if e.Some? && MemoryCounts(cfg, q.key, e.value) then Reply(s2, r, MemoryAnswer(cfg, s2.local, q, e.value, r))
      else Proceed(cfg, s2, r, 0)
  }

  predicate ProbeCounts(p: Probe, found: Option<Found>) {
    found.Some? && NonNull(found.value.val) && (p.needsData ==> HasData(found.value.val))
  }

  function UseHit(cfg: Config, l: Local, q: Query, p: Probe, f: Found, r: nat): Answer {
    var fill := Fill(f.origin, f.until, f.readAt, l.now, p.refresh.Always?);
    var l1 := CacheSet(l, q.cacheKey, f.val, MemTtl(cfg, q.key, p, f.ttlMs), fill);
    var l2 := if p.warms then SyncSnapshotWrite(cfg, l1, q, f.val, f.origin) else l1;
    var refresh := p.refresh.Always? || (p.refresh.IfNear? && Near(cfg, q.key, f.ttlMs));
    Answer(if refresh then Schedule(cfg, l2, q, r) else l2, f.val, refresh, Some(fill))
  }

  /** Request `r` has the answer of the tier it asked. */
  predicate HasAnswer(cfg: Config, s: State, r: nat) {
    r < |s.reqs| && s.reqs[r].pc.Answered? && s.reqs[r].pc.i < |Walk(cfg, s.reqs[r].q.key)|
  }

  function ProbeOf(cfg: Config, s: State, r: nat): Probe
    requires HasAnswer(cfg, s, r)
  {
    Walk(cfg, s.reqs[r].q.key)[s.reqs[r].pc.i]
  }

  function Resume(cfg: Config, s: State, r: nat): State
    requires HasAnswer(cfg, s, r)
  {
    var p := ProbeOf(cfg, s, r);
    if ProbeCounts(p, s.reqs[r].pc.found) then Reply(s, r, UseHit(cfg, s.local, s.reqs[r].q, p, s.reqs[r].pc.found.value, r))
    else Proceed(cfg, s, r, s.reqs[r].pc.i + 1)
  }

  // ---------------------------------------------------------------- events

  /** What a loader gives: a payload, null, or an error. */
  datatype Outcome = Payload(id: int, empty: bool) | Nothing | Throws

  function Tag(o: Outcome, k: Key): Val
    requires !o.Throws?
  {
    match o case Payload(id, empty) => Loaded(k, id, empty) case Nothing => LoadedNull(k)
  }

  datatype Event =
    | Arrive(info: Request)
    | ReadTier(r: nat, fails: bool, pick: string)
    | Continue(r: nat)
    | LoaderEnds(r: nat, o: Outcome)
    | TaskStarts(t: nat)
    | TaskEnds(t: nat, o: Outcome)
    | TaskSettles(t: nat)
    | JobStarts(key: Key)
    | JobChecked(j: nat, isFresh: bool)
    | JobEnds(j: nat, o: Outcome)
    | JobSettles(j: nat)
    | TableWritten(i: nat)
    | TableWriteLost(i: nat)
    | SnapWritten(i: nat)
    | SnapWriteLost(i: nat)
    | RowPurged(cacheKey: string)
    | SnapRemoved(cacheKey: string)
    | EntryForgotten(cacheKey: string)
    | HintsConsumed
    | Tick(ms: nat)

  predicate Enabled(cfg: Config, s: State, e: Event) {
    match e
    case ReadTier(r, _, _) => r < |s.reqs| && s.reqs[r].pc.Reading? && s.reqs[r].pc.i < |Walk(cfg, s.reqs[r].q.key)|
    case Continue(r) => HasAnswer(cfg, s, r)
    case LoaderEnds(r, _) => r < |s.reqs| && s.reqs[r].pc.Loading?
    case TaskStarts(t) => t < |s.local.tasks| && s.local.tasks[t].pc.Queued?
    case TaskEnds(t, _) => t < |s.local.tasks| && s.local.tasks[t].pc.Running?
    case TaskSettles(t) => t < |s.local.tasks| && s.local.tasks[t].pc.Settling?
    case JobChecked(j, _) => j < |s.jobs| && s.jobs[j].pc.Checking?
    case JobEnds(j, _) => j < |s.jobs| && s.jobs[j].pc.JobLoading?
    case JobSettles(j) => j < |s.jobs| && s.jobs[j].pc.JobSettling?
    case TableWritten(i) => i < |s.local.tableWrites|
    case TableWriteLost(i) => i < |s.local.tableWrites|
    case SnapWritten(i) => i < |s.local.snapWrites|
    case SnapWriteLost(i) => i < |s.local.snapWrites|
    case _ => true
  }

  function Without<T>(xs: seq<T>, i: nat): seq<T>
    requires i < |xs|
  {
    xs[..i] + xs[i + 1..]
  }

  function SetTask(l: Local, t: nat, pc: TaskPc): Local
    requires t < |l.tasks|
  {
    l.(tasks := l.tasks[t := l.tasks[t].(pc := pc)])
  }

  function SetJob(s: State, j: nat, pc: JobPc): State
    requires j < |s.jobs|
  {
    s.(jobs := s.jobs[j := s.jobs[j].(pc := pc)])
  }

  function LiveHints(l: Local): map<string, int> { map k | k in l.hints && l.now - l.hints[k] <= PrecomputeHints.HINT_TTL_MS :: l.hints[k] }

  function FinishLoad(cfg: Config, s: State, r: nat, o: Outcome): State
    requires r < |s.reqs|
  {
    var q := s.reqs[r].q;
    var ttl := cfg.ttlMs(q.key);
    if o.Throws? then SetPc(s, r, Done(Errored, s.local.now))
    else
      var v := Tag(o, q.key);
      Reply(s, r, Answer(PersistDashboardCaches(cfg, s.local, q, v, ttl), v, false, Some(FreshFill(s.local, ttl))))
  }

  function FinishTask(cfg: Config, s: State, t: nat, o: Outcome): State
    requires t < |s.local.tasks|
  {
    s.(local := if o.Throws? then SetTask(s.local, t, Settling) else TaskLoaded(cfg, s.local, t, Tag(o, s.local.tasks[t].q.key)))
  }

  function StartJob(s: State, q: Query): State {
    if q.cacheKey in s.jobInflight then s
    else s.(jobs := s.jobs + [Job(q, Checking)], jobInflight := s.jobInflight[q.cacheKey := |s.jobs|])
  }

  function CheckJob(s: State, j: nat, isFresh: bool): State
    requires j < |s.jobs|
  {
    if isFresh then SetJob(s, j, JobSettling) else SetJob(s, j, JobLoading).(calls := s.calls + [ForJob(j)])
  }

  function FinishJob(cfg: Config, s: State, j: nat, o: Outcome): State
    requires j < |s.jobs|
  {
    var q := s.jobs[j].q;
    var s1 := SetJob(s, j, JobSettling);
    if o.Throws? then s1
    else s1.(local := PersistDashboardCaches(cfg, s.local, q, Tag(o, q.key), cfg.readonlyTtlMs(q.key)))
  }

  function WriteRow(cfg: Config, s: State, i: nat): State
    requires i < |s.local.tableWrites|
  {
    var w := s.local.tableWrites[i];
    var dims := if w.q.cacheKey in s.table then s.table[w.q.cacheKey].dims else w.q.key;
    s.(table := s.table[w.q.cacheKey := TableRow(dims, w.val, s.local.now, s.local.now + cfg.tableTtlMs(w.q.key))],
       local := s.local.(tableWrites := Without(s.local.tableWrites, i)))
  }

  function WriteSnap(s: State, i: nat): State
    requires i < |s.local.snapWrites|
  {
    var w := s.local.snapWrites[i];
    s.(snaps := s.snaps[w.q.cacheKey := SnapFile(w.val, w.expiresAt, w.origin)],
       local := s.local.(snapWrites := Without(s.local.snapWrites, i)))
  }

  function ReadStep(cfg: Config, s: State, r: nat, fails: bool, pick: string): State
    requires Enabled(cfg, s, ReadTier(r, fails, pick))
  {
    var q := s.reqs[r].q;
    var i := s.reqs[r].pc.i;
    SetPc(s, r, Answered(i, if fails then None else ReadSource(cfg, s, q, Walk(cfg, q.key)[i].source, pick)))
  }

  function Apply(cfg: Config, s: State, e: Event): State
    requires Enabled(cfg, s, e)
  {
    match e
    case Arrive(info) => Begin(cfg, s, info, QueryOf(info.key))
    case ReadTier(r, fails, pick) => ReadStep(cfg, s, r, fails, pick)
    case Continue(r) => Resume(cfg, s, r)
    case LoaderEnds(r, o) => FinishLoad(cfg, s, r, o)
    case TaskStarts(t) => s.(local := SetTask(s.local, t, Running), calls := s.calls + [ForTask(t)])
    case TaskEnds(t, o) => FinishTask(cfg, s, t, o)
    case TaskSettles(t) => s.(local := TaskSettled(s.local, t))
    case JobStarts(k) => StartJob(s, QueryOf(k))
    case JobChecked(j, isFresh) => CheckJob(s, j, isFresh)
    case JobEnds(j, o) => FinishJob(cfg, s, j, o)
    case JobSettles(j) => SetJob(s, j, JobDone).(jobInflight := s.jobInflight - {s.jobs[j].q.cacheKey})
    case TableWritten(i) => WriteRow(cfg, s, i)
    case TableWriteLost(i) => s.(local := s.local.(tableWrites := Without(s.local.tableWrites, i)))
    case SnapWritten(i) => WriteSnap(s, i)
    case SnapWriteLost(i) => s.(local := s.local.(snapWrites := Without(s.local.snapWrites, i)))
    case RowPurged(t) => s.(table := s.table - {t})
    case SnapRemoved(t) => s.(snaps := s.snaps - {t})
    case EntryForgotten(t) => s.(local := s.local.(mem := s.local.mem - {t}))
    case HintsConsumed => s.(local := s.local.(hints := LiveHints(s.local)))
    case Tick(ms) => s.(local := s.local.(now := s.local.now + ms))
  }

  /** No request moves. */
  predicate LeavesRequests(e: Event) {
    match e
    case TaskStarts(_) | TaskEnds(_, _) | TaskSettles(_) => true
    case JobStarts(_) | JobChecked(_, _) | JobEnds(_, _) | JobSettles(_) => true
    case TableWritten(_) | TableWriteLost(_) | SnapWritten(_) | SnapWriteLost(_) => true
    case RowPurged(_) | SnapRemoved(_) | EntryForgotten(_) | HintsConsumed | Tick(_) => true
    case _ => false
  }

  lemma RequestsLeft(cfg: Config, s: State, e: Event)
    requires LeavesRequests(e) && Enabled(cfg, s, e)
    ensures Apply(cfg, s, e).reqs == s.reqs
  {
  }

  ghost predicate Run(cfg: Config, s: State, events: seq<Event>, t: State)
    decreases |events|
  {
    if events == [] then s == t
    else Enabled(cfg, s, events[0]) && Run(cfg, Apply(cfg, s, events[0]), events[1..], t)
  }

  /** Every request and every job of the run is for one of these keys. */
  ghost predicate EventIn(ks: iset<Key>, e: Event) {
    match e
    case Arrive(info) => info.key in ks
    case JobStarts(k) => k in ks
    case _ => true
  }

  ghost predicate EventsIn(ks: iset<Key>, events: seq<Event>) { forall i :: 0 <= i < |events| ==> EventIn(ks, events[i]) }

  /** Some run over these keys leads from the empty cache at `start` to this state. */
  ghost predicate Reaches(cfg: Config, ks: iset<Key>, start: int, s: State) {
    exists events :: Run(cfg, Init(start), events, s) && EventsIn(ks, events)
  }
}
