/**
 * When the age of an answer without a refresh is bounded, and when an expired value can come back as fresh: the exact
 * conditions on the settings, each with the runs that show it to be needed.
 */
module DashboardAgeRuns {
  import opened Options
  import opened CacheKey
  import opened DashboardMemory
  import opened DashboardCache
  import opened DashboardProvenance
  import opened DashboardFreshness
  import opened DashboardAge
  import opened DashboardRuns
  import opened MinMax

  /** Request `r` for `k` has been answered, with no refresh ordered. */
  predicate Unrefreshed(s: State, r: nat, k: Key) {
    r < |s.reqs| && s.reqs[r].q.key == k && s.reqs[r].pc.Done? && s.reqs[r].pc.resp.Served? && !s.reqs[r].pc.resp.refreshPending
  }

  /** Its value was this old at most, but for the time between reading and using it. */
  predicate NoOlder(s: State, r: nat, k: Key, limit: int)
    requires Unrefreshed(s, r, k)
  {
    var f := s.reqs[r].pc.resp.fill;
    f.Some? && s.reqs[r].pc.at <= f.value.origin + limit + (f.value.usedAt - f.value.readAt)
  }

  ghost predicate AgesWithin(cfg: Config, ks: iset<Key>, k: Key, limit: int) {
    forall start, s, r :: Reaches(cfg, ks, start, s) && Unrefreshed(s, r, k) ==> NoOlder(s, r, k, limit)
  }

  /** No refresh has been ordered in the run, and none is hinted. */
  predicate Quiet(s: State) { !Ordered(s.local) && s.local.hints == map[] }

  ghost predicate QuietAgesWithin(cfg: Config, ks: iset<Key>, k: Key, limit: int) {
    forall start, s, r :: Reaches(cfg, ks, start, s) && Quiet(s) && Unrefreshed(s, r, k) ==> NoOlder(s, r, k, limit)
  }

  // ---------------------------------------------------------------- moves

  /** An answer from memory that orders no refresh sends the value to its snapshot once more. */
  lemma HitsUnrefreshed(cfg: Config, s: State, k: Key)
    requires var e := LiveEntry(s.local, BuildDashboardCacheKey(k));
      e.Some? && HasData(e.value.val) && (cfg.readonly || e.value.ttlMs > cfg.nearMs(k))
    ensures var e := s.local.mem[BuildDashboardCacheKey(k)];
      Asked(cfg, s, k) == s.(local := SyncSnapshotWrite(cfg, s.local, QueryOf(k), e.val, e.fill.origin),
        reqs := s.reqs + [Req(QueryOf(k), false, false, Done(Served(e.val, false, Some(e.fill)), s.local.now))])
  {
    Hits(cfg, s, k);
  }

  /** What a tier gave stands in memory. */
  lemma UsedIsKept(cfg: Config, s: State, r: nat, i: nat, f: Found)
    requires r < |s.reqs| && i < |Walk(cfg, s.reqs[r].q.key)|
    ensures var q, p, s' := s.reqs[r].q, Walk(cfg, s.reqs[r].q.key)[i], Used(cfg, s, r, i, f);
      && s'.local.mem == s.local.mem[q.cacheKey := EntryFrom(cfg, q.key, p, f, s.local.now)]
      && s'.local.now == s.local.now && s'.calls == s.calls && |s'.reqs| == |s.reqs|
      && (forall m :: 0 <= m < |s.reqs| && m != r ==> s'.reqs[m] == s.reqs[m])
      && (!OrdersRefresh(cfg, q.key, p, f) && !p.warms ==> s'.local == s.local.(mem := s'.local.mem))
  {
  }

  /** A job loads, and its snapshot is written. */
  function AfterSnap(cfg: Config, s: State, k: Key): State
    requires s.jobs == [] && s.jobInflight == map[] && SnapTakes(cfg, k) && s.local.snapWrites == []
  {
    WriteSnap(AfterJob(cfg, s, k), 0)
  }

  lemma SnapWrites(cfg: Config, ks: iset<Key>, start: int, s: State, k: Key)
    requires Reaches(cfg, ks, start, s) && k in ks && s.jobs == [] && s.jobInflight == map[]
    requires SnapTakes(cfg, k) && s.local.snapWrites == []
    ensures Reaches(cfg, ks, start, AfterSnap(cfg, s, k))
  {
    JobLoads(cfg, ks, start, s, k);
    Steps(cfg, ks, start, AfterJob(cfg, s, k), SnapWritten(0));
  }

  lemma SnapIsThere(cfg: Config, s: State, k: Key)
    requires s.jobs == [] && s.jobInflight == map[] && SnapTakes(cfg, k) && s.local.snapWrites == []
    ensures var t, text, ttl := AfterSnap(cfg, s, k), BuildDashboardCacheKey(k), cfg.readonlyTtlMs(k);
      && text in t.snaps && t.snaps[text] == SnapFile(JobValue(k), s.local.now + cfg.snapTtlMs(k), s.local.now)
      && t.local.mem == s.local.mem[text := MemEntry(JobValue(k), s.local.now + ttl, ttl, FreshFill(s.local, ttl))]
      && t.local.now == s.local.now && t.local.tasks == s.local.tasks && t.local.hints == s.local.hints
      && t.reqs == s.reqs && t.calls == s.calls + [ForJob(0)]
  {
    assert AfterJob(cfg, s, k).local.snapWrites == [SnapWrite(QueryOf(k), JobValue(k), s.local.now + cfg.snapTtlMs(k), s.local.now)];
  }

  /** Where the walk reads the snapshot: first only a fresh one, then any. */
  function SnapTier(cfg: Config, k: Key): (i: nat)
    requires SnapTakes(cfg, k)
    ensures i + 1 < |Walk(cfg, k)|
    ensures Walk(cfg, k)[i] == Probe(SnapFresh, TrendEndpoint(k.endpoint), false, if cfg.readonly then Never else IfNear)
    ensures Walk(cfg, k)[i + 1] == Probe(SnapAny, false, false, Always)
  {
    if !cfg.tableEnabled then 0 else if cfg.readonly && !TrendEndpoint(k.endpoint) then 3 else 1
  }

  // ---------------------------------------------------------------- a stale snapshot comes back as fresh

  /** The answer is from memory, and what memory has it from had expired there when it was read. */
  predicate CameBack(s: State, r: nat, k: Key) {
    Unrefreshed(s, r, k) && s.reqs[r].pc.resp.fill.Some? && !HadTime(s.reqs[r].pc.resp.fill.value)
  }

  /** The one value ever loaded is answered without a refresh, at this age at least. */
  predicate ServedAtAge(s: State, r: nat, k: Key, loaded: int, age: int) {
    && Unrefreshed(s, r, k) && s.reqs[r].pc.resp.val == JobValue(k) && s.calls == [ForJob(0)] && s.reqs[r].pc.resp.fill.Some?
    && s.reqs[r].pc.resp.fill.value.origin == loaded && s.reqs[r].pc.at >= loaded + age
    && s.reqs[r].pc.resp.fill.value.usedAt == s.reqs[r].pc.resp.fill.value.readAt
  }

  /** A snapshot that has expired for however long, asked for when memory has nothing. */
  lemma StaleSnapshotAsked(cfg: Config, start: int, k: Key, late: nat) returns (s: State)
    requires SnapTakes(cfg, k)
    ensures Reaches(cfg, iset{k}, start, s) && s.reqs == [Req(QueryOf(k), false, false, Reading(0))] && s.calls == [ForJob(0)]
    ensures BuildDashboardCacheKey(k) in s.snaps && s.local.now >= start + late
    ensures s.snaps[BuildDashboardCacheKey(k)].val == JobValue(k) && s.snaps[BuildDashboardCacheKey(k)].origin == start
    ensures s.snaps[BuildDashboardCacheKey(k)].expiresAt <= s.local.now
  {
    var ks, s0, ms := iset{k}, Init(start), cfg.readonlyTtlMs(k) + cfg.snapTtlMs(k) + late;
    Starts(cfg, ks, start);
    SnapWrites(cfg, ks, start, s0, k);
    SnapIsThere(cfg, s0, k);
    var s1 := AfterSnap(cfg, s0, k);
    Ticks(cfg, ks, start, s1, ms);
    var i := SnapTier(cfg, k);
    Misses(cfg, Later(s1, ms), k);
    Arrives(cfg, ks, start, Later(s1, ms), k);
    s := Asked(cfg, Later(s1, ms), k);
  }

  /**
   * It is answered with a pending refresh, and memory keeps it for a whole time to live. Asked again, it is answered from
   * memory as fresh. In read-only mode this needs no condition on the times to live.
   */
  lemma StaleSnapshotComesBack(cfg: Config, start: int, k: Key, late: nat) returns (s: State)
    requires SnapTakes(cfg, k) && (cfg.readonly || cfg.ttlMs(k) > cfg.nearMs(k))
    ensures Reaches(cfg, iset{k}, start, s) && CameBack(s, 1, k) && ServedAtAge(s, 1, k, start, late)
  {
    var s1 := StaleSnapshotAsked(cfg, start, k, late);
    var i, f := SnapTier(cfg, k) + 1, SnapFound(s1, BuildDashboardCacheKey(k));
    ReadsFrom(cfg, iset{k}, start, s1, 0, i, "", f);
    UsedIsKept(cfg, s1, 0, i, f);
    var s2 := Used(cfg, s1, 0, i, f);
    HitsUnrefreshed(cfg, s2, k);
    Arrives(cfg, iset{k}, start, s2, k);
    s := Asked(cfg, s2, k);
  }

  // ---------------------------------------------------------------- a stale row comes back as fresh

  /** The tier that reads the row of `j` for `k` when it has expired. */
  lemma StaleRowTier(cfg: Config, s: State, r: nat, j: Key) returns (i: nat)
    requires r < |s.reqs| && s.reqs[r].q == QueryOf(s.reqs[r].q.key) && OnlyRow(s, j) && Young(cfg, s, j, s.reqs[r].q.key)
    requires cfg.tableEnabled && (cfg.readonly || TrendEndpoint(s.reqs[r].q.key.endpoint))
    requires GivesRow(iset{j}, j, s.reqs[r].q.key)
    ensures TierHas(cfg, s, r, i, BuildDashboardCacheKey(j), RowFound(s, BuildDashboardCacheKey(j)))
    ensures FromTable(Walk(cfg, s.reqs[r].q.key)[i].source) && Walk(cfg, s.reqs[r].q.key)[i].refresh.Always?
  {
    if TrendEndpoint(s.reqs[r].q.key.endpoint) && SameDims(j, s.reqs[r].q.key) {
      i := |Walk(cfg, s.reqs[r].q.key)| - 1;
      RowFoundByDims(cfg, s, r, j);
    } else {
      i := 2;
    }
  }

  /** A request for `k` waits while the row of `j` is written and expires. */
  lemma StaleRowAsked(cfg: Config, ks: iset<Key>, start: int, j: Key, k: Key) returns (s: State)
    requires j in ks && k in ks && cfg.tableEnabled && |Walk(cfg, k)| > 0
    ensures Reaches(cfg, ks, start, s) && s.reqs == [Req(QueryOf(k), false, false, Reading(0))]
    ensures OnlyRow(s, j) && s.table[BuildDashboardCacheKey(j)].refreshedAt == start
    ensures s.table[BuildDashboardCacheKey(j)].expiresAt == s.local.now == start + cfg.tableTtlMs(j)
  {
    Starts(cfg, ks, start);
    Misses(cfg, Init(start), k);
    Arrives(cfg, ks, start, Init(start), k);
    var s1 := Asked(cfg, Init(start), k);
    RowWritten(cfg, ks, start, s1, j);
    RowIsThere(cfg, s1, j);
    Ticks(cfg, ks, start, AfterRow(cfg, s1, j), cfg.tableTtlMs(j));
    s := Later(AfterRow(cfg, s1, j), cfg.tableTtlMs(j));
  }

  /** It is read, and memory keeps it. */
  lemma StaleRowEntry(cfg: Config, k: Key, p: Probe, f: Found, now: int)
    requires FromTable(p.source) && p.refresh.Always? && f.ttlMs == 0
    ensures EntryFrom(cfg, k, p, f, now) == MemEntry(f.val, now + RowTtl(cfg, k), RowTtl(cfg, k),
      Fill(f.origin, f.until, f.readAt, now, true))
  {
  }

  lemma StaleRowUsed(cfg: Config, ks: iset<Key>, start: int, j: Key, k: Key) returns (s: State)
    requires k in ks && GivesRow(ks, j, k) && cfg.tableTtlMs(j) < cfg.maxStaleMs(k)
    requires cfg.tableEnabled && (cfg.readonly || TrendEndpoint(k.endpoint))
    ensures Reaches(cfg, ks, start, s) && |s.reqs| == 1 && BuildDashboardCacheKey(k) in s.local.mem
    ensures s.local.mem[BuildDashboardCacheKey(k)] == MemEntry(JobValue(j), s.local.now + RowTtl(cfg, k), RowTtl(cfg, k),
      Fill(start, s.local.now, s.local.now, s.local.now, true))
  {
    var s1 := StaleRowAsked(cfg, ks, start, j, k);
    var f := RowFound(s1, BuildDashboardCacheKey(j));
    var i := StaleRowTier(cfg, s1, 0, j);
    ReadsFrom(cfg, ks, start, s1, 0, i, BuildDashboardCacheKey(j), f);
    UsedIsKept(cfg, s1, 0, i, f);
    StaleRowEntry(cfg, k, Walk(cfg, k)[i], f, s1.local.now);
    s := Used(cfg, s1, 0, i, f);
  }

  /** Asked again, it is answered from memory as fresh. */
  lemma StaleRowComesBack(cfg: Config, ks: iset<Key>, start: int, j: Key, k: Key) returns (s: State)
    requires k in ks && GivesRow(ks, j, k) && cfg.tableTtlMs(j) < cfg.maxStaleMs(k)
    requires cfg.tableEnabled && (cfg.readonly || (TrendEndpoint(k.endpoint) && cfg.tableTtlMs(k) > cfg.nearMs(k)))
    ensures Reaches(cfg, ks, start, s) && CameBack(s, 1, k)
  {
    var s1 := StaleRowUsed(cfg, ks, start, j, k);
    HitsUnrefreshed(cfg, s1, k);
    Arrives(cfg, ks, start, s1, k);
    s := Asked(cfg, s1, k);
  }

  // ---------------------------------------------------------------- requests keep a value alive

  function Waiter(k: Key): Req { Req(QueryOf(k), false, false, Reading(0)) }

  function Waiters(k: Key, n: nat): seq<Req> { seq(n, _ => Waiter(k)) }

  /** Pages ask before anything is loaded, and their first reads are slow. */
  lemma {:induction false} PagesWait(cfg: Config, start: int, k: Key, n: nat)
    requires |Walk(cfg, k)| > 0
    ensures Reaches(cfg, iset{k}, start, Init(start).(reqs := Waiters(k, n)))
  {
    if n == 0 {
      Starts(cfg, iset{k}, start);
      assert Init(start).(reqs := Waiters(k, 0)) == Init(start);
    } else {
      PagesWait(cfg, start, k, n - 1);
      var s := Init(start).(reqs := Waiters(k, n - 1));
      Misses(cfg, s, k);
      Arrives(cfg, iset{k}, start, s, k);
      assert Waiters(k, n) == Waiters(k, n - 1) + [Waiter(k)];
    }
  }

  /** Memory holds the one value loaded, for the whole life of a snapshot from now on, and nothing was ordered or hinted. */
  predicate Alive(cfg: Config, s: State, k: Key, loaded: int) {
    var t, ttl := BuildDashboardCacheKey(k), cfg.snapTtlMs(k);
    && t in s.local.mem && s.local.mem[t].val == JobValue(k)
    && s.local.mem[t].ttlMs == ttl && s.local.mem[t].exp == s.local.now + ttl
    && s.local.mem[t].fill.origin == loaded && s.local.mem[t].fill.usedAt == s.local.mem[t].fill.readAt
    && s.calls == [ForJob(0)] && Quiet(s)
  }

  /** From here on these requests have not read anything yet. */
  predicate StillWait(s: State, k: Key, from: nat, to: nat) {
    to <= |s.reqs| && forall r :: from <= r < to ==> s.reqs[r] == Waiter(k)
  }

  /** A waiting request reads a snapshot that has its whole life before it. */
  lemma WaiterReads(cfg: Config, start: int, s: State, k: Key, r: nat, n: nat)
    requires Reaches(cfg, iset{k}, start, s) && r < n && StillWait(s, k, r, n) && Quiet(s) && s.calls == [ForJob(0)]
    requires SnapTakes(cfg, k) && (cfg.readonly || cfg.snapTtlMs(k) > cfg.nearMs(k))
    requires var t := BuildDashboardCacheKey(k);
      t in s.snaps && s.snaps[t] == SnapFile(JobValue(k), s.local.now + cfg.snapTtlMs(k), start)
    ensures var i, f := SnapTier(cfg, k), SnapFound(s, BuildDashboardCacheKey(k));
      && Reaches(cfg, iset{k}, start, Used(cfg, s, r, i, f))
      && Alive(cfg, Used(cfg, s, r, i, f), k, start) && StillWait(Used(cfg, s, r, i, f), k, r + 1, n)
      && Used(cfg, s, r, i, f).local.now == s.local.now
  {
    var i, f := SnapTier(cfg, k), SnapFound(s, BuildDashboardCacheKey(k));
    ReadsFrom(cfg, iset{k}, start, s, r, i, "", f);
    UsedIsKept(cfg, s, r, i, f);
  }

  /** At the last instant of its life the value is asked for, which sends its snapshot anew, and that is written. */
  lemma AskedAtItsEnd(cfg: Config, start: int, s: State, k: Key, r: nat, n: nat) returns (t: State)
    requires Reaches(cfg, iset{k}, start, s) && Alive(cfg, s, k, start) && StillWait(s, k, r, n)
    requires SnapTakes(cfg, k) && (cfg.readonly || cfg.snapTtlMs(k) > cfg.nearMs(k))
    ensures Reaches(cfg, iset{k}, start, t) && StillWait(t, k, r, n) && Quiet(t) && t.calls == [ForJob(0)]
    ensures t.local.now == s.local.now + cfg.snapTtlMs(k) && BuildDashboardCacheKey(k) in t.snaps
    ensures t.snaps[BuildDashboardCacheKey(k)] == SnapFile(JobValue(k), t.local.now + cfg.snapTtlMs(k), start)
  {
    var ks, s1 := iset{k}, Later(s, cfg.snapTtlMs(k));
    Ticks(cfg, ks, start, s, cfg.snapTtlMs(k));
    HitsUnrefreshed(cfg, s1, k);
    Arrives(cfg, ks, start, s1, k);
    var s2 := Asked(cfg, s1, k);
    var last := |s1.local.snapWrites|;
    assert s2.local.snapWrites[last] == SnapWrite(QueryOf(k), JobValue(k), s1.local.now + cfg.snapTtlMs(k), start);
    Steps(cfg, ks, start, s2, SnapWritten(last));
    t := WriteSnap(s2, last);
  }

  lemma {:induction false} KeepsAlive(cfg: Config, start: int, k: Key, lives: nat, n: nat) returns (s: State)
    requires SnapTakes(cfg, k) && (cfg.readonly || cfg.snapTtlMs(k) > cfg.nearMs(k)) && lives < n
    ensures Reaches(cfg, iset{k}, start, s) && Alive(cfg, s, k, start) && StillWait(s, k, lives + 1, n)
    ensures s.local.now >= start + lives
  {
    var i, t := SnapTier(cfg, k), BuildDashboardCacheKey(k);
    var s1;
    if lives == 0 {
      var s0 := Init(start).(reqs := Waiters(k, n));
      PagesWait(cfg, start, k, n);
      SnapWrites(cfg, iset{k}, start, s0, k);
      SnapIsThere(cfg, s0, k);
      s1 := AfterSnap(cfg, s0, k);
    } else {
      var s0 := KeepsAlive(cfg, start, k, lives - 1, n);
      s1 := AskedAtItsEnd(cfg, start, s0, k, lives, n);
    }
    WaiterReads(cfg, start, s1, k, lives, n);
    s := Used(cfg, s1, lives, i, SnapFound(s1, t));
  }

  /**
   * Every hit in memory writes the snapshot anew with a whole new life, so requests alone keep a value: for every age there
   * is a run in which the one value ever loaded is answered at that age, as fresh, with no refresh ordered and none hinted.
   */
  lemma RequestsKeepAnOldValueAlive(cfg: Config, start: int, k: Key, age: nat) returns (s: State, r: nat)
    requires SnapTakes(cfg, k) && (cfg.readonly || cfg.snapTtlMs(k) > cfg.nearMs(k))
    ensures Reaches(cfg, iset{k}, start, s) && Quiet(s) && ServedAtAge(s, r, k, start, age)
  {
    var s1 := KeepsAlive(cfg, start, k, age, age + 1);
    HitsUnrefreshed(cfg, s1, k);
    Arrives(cfg, iset{k}, start, s1, k);
    s, r := Asked(cfg, s1, k), |s1.reqs|;
  }

  // ---------------------------------------------------------------- the exact conditions

  /** Snapshots can hand a value on without a refresh. */
  predicate SnapshotsHandOn(cfg: Config, k: Key) {
    SnapTakes(cfg, k) && (cfg.readonly || cfg.ttlMs(k) > cfg.nearMs(k) || cfg.snapTtlMs(k) > cfg.nearMs(k))
  }

  /** They can without one ever having been ordered. */
  predicate SnapshotsHandOnQuietly(cfg: Config, k: Key) {
    SnapTakes(cfg, k) && (cfg.readonly || cfg.snapTtlMs(k) > cfg.nearMs(k))
  }

  lemma OlderThan(cfg: Config, ks: iset<Key>, k: Key, limit: int, s: State, r: nat, start: int)
    requires Reaches(cfg, ks, start, s) && ServedAtAge(s, r, k, start, limit + 1)
    ensures !AgesWithin(cfg, ks, k, limit) && (Quiet(s) ==> !QuietAgesWithin(cfg, ks, k, limit))
  {
    assert Unrefreshed(s, r, k) && !NoOlder(s, r, k, limit);
  }

  lemma AgeIsUnbounded(cfg: Config, ks: iset<Key>, k: Key, limit: int)
    requires k in ks && SnapshotsHandOn(cfg, k)
    ensures !AgesWithin(cfg, ks, k, limit)
    ensures SnapshotsHandOnQuietly(cfg, k) ==> !QuietAgesWithin(cfg, ks, k, limit)
  {
    var age: nat := if limit < 0 then 0 else limit + 1;
    if SnapshotsHandOnQuietly(cfg, k) {
      var s, r := RequestsKeepAnOldValueAlive(cfg, 0, k, age);
      MoreKeysReach(cfg, iset{k}, ks, 0, s);
      OlderThan(cfg, ks, k, limit, s, r, 0);
    } else {
      var s := StaleSnapshotComesBack(cfg, 0, k, age);
      MoreKeysReach(cfg, iset{k}, ks, 0, s);
      OlderThan(cfg, ks, k, limit, s, 1, 0);
    }
  }

  lemma AgeIsBounded(ks: KeySet, cfg: Config, k: Key, bound: int)
    requires k in ks && RowsWithin(ks, cfg, k, bound)
    ensures !SnapshotsHandOn(cfg, k) ==> AgesWithin(cfg, ks, k, Limit(cfg, k, bound))
    ensures !SnapshotsHandOnQuietly(cfg, k) ==> QuietAgesWithin(cfg, ks, k, Limit(cfg, k, bound))
  {
    forall start, s, r | Reaches(cfg, ks, start, s) && Unrefreshed(s, r, k)
      ensures !SnapshotsHandOn(cfg, k) || (!SnapshotsHandOnQuietly(cfg, k) && Quiet(s)) ==> NoOlder(s, r, k, Limit(cfg, k, bound))
    {
      ReachedAged(ks, cfg, k, bound, start, s, r);
    }
  }

  /**
   * The exact condition for the age of the answers without a refresh to be bounded, for every key of any set that the text
   * tells apart: that snapshots are off or do not take the key, or else that outside read-only mode both what memory gives an
   * expired snapshot and the life of a snapshot are short enough to be near their end from the start. Then the bound is a
   * constant of the settings: the longest life of a row, or the staleness allowed and one life in memory. (`bound` is any that the rows which may be
   * read for the key keep; finitely many keys always have one.)
   */
  lemma AgeIsBoundedIff(ks: KeySet, cfg: Config, k: Key, bound: int)
    requires k in ks && RowsWithin(ks, cfg, k, bound)
    ensures (exists limit :: AgesWithin(cfg, ks, k, limit)) <==> !SnapshotsHandOn(cfg, k)
    ensures AgesWithin(cfg, ks, k, Limit(cfg, k, bound)) <==> !SnapshotsHandOn(cfg, k)
  {
    AgeIsBounded(ks, cfg, k, bound);
    if SnapshotsHandOn(cfg, k) {
      forall limit ensures !AgesWithin(cfg, ks, k, limit) { AgeIsUnbounded(cfg, ks, k, limit); }
    }
  }

  /** The same over the runs in which no refresh is ever ordered. */
  lemma QuietAgeIsBoundedIff(ks: KeySet, cfg: Config, k: Key, bound: int)
    requires k in ks && RowsWithin(ks, cfg, k, bound)
    ensures (exists limit :: QuietAgesWithin(cfg, ks, k, limit)) <==> !SnapshotsHandOnQuietly(cfg, k)
    ensures QuietAgesWithin(cfg, ks, k, Limit(cfg, k, bound)) <==> !SnapshotsHandOnQuietly(cfg, k)
  {
    AgeIsBounded(ks, cfg, k, bound);
    if SnapshotsHandOnQuietly(cfg, k) {
      forall limit ensures !QuietAgesWithin(cfg, ks, k, limit) { AgeIsUnbounded(cfg, ks, k, limit); }
    }
  }

  /** An expired value can stand in memory for long: from a snapshot, or from a row where stale rows are read. */
  ghost predicate MayComeBack(ks: iset<Key>, cfg: Config, k: Key) {
    || (SnapTakes(cfg, k) && (cfg.readonly || cfg.ttlMs(k) > cfg.nearMs(k)))
    || (StaleRow(ks, cfg, k) && (cfg.readonly || cfg.tableTtlMs(k) > cfg.nearMs(k)))
  }

  ghost predicate SomeComeBack(cfg: Config, ks: iset<Key>, k: Key) {
    exists start, s, r :: Reaches(cfg, ks, start, s) && CameBack(s, r, k)
  }

  lemma ComesBack(ks: iset<Key>, cfg: Config, k: Key)
    requires k in ks && MayComeBack(ks, cfg, k)
    ensures SomeComeBack(cfg, ks, k)
  {
    if SnapTakes(cfg, k) && (cfg.readonly || cfg.ttlMs(k) > cfg.nearMs(k)) {
      var s := StaleSnapshotComesBack(cfg, 0, k, 0);
      MoreKeysReach(cfg, iset{k}, ks, 0, s);
    } else {
      var j :| GivesRow(ks, j, k) && cfg.tableTtlMs(j) < cfg.maxStaleMs(k);
      var s := StaleRowComesBack(cfg, ks, 0, j, k);
    }
  }

  predicate EventOf(e: Event, j: Key) {
    match e
    case Arrive(info) => info.key == j
    case JobStarts(k) => k == j
    case _ => false
  }

  predicate AsksFor(events: seq<Event>, j: Key) { exists i :: 0 <= i < |events| && EventOf(events[i], j) }

  /** The keys of one run. */
  ghost function KeysOf(events: seq<Event>): iset<Key> { iset j | AsksFor(events, j) }

  /** They are finitely many, so their rows have a longest life. */
  lemma {:induction false} KeysOfARun(cfg: Config, k: Key, events: seq<Event>) returns (bound: int)
    ensures RowsWithin(KeysOf(events), cfg, k, bound)
    decreases |events|
  {
    if events == [] {
      bound := 0;
    } else {
      var last := events[|events| - 1];
      var b := KeysOfARun(cfg, k, events[..|events| - 1]);
      var own := if last.Arrive? then cfg.tableTtlMs(last.info.key) else if last.JobStarts? then cfg.tableTtlMs(last.key) else 0;
      bound := Max(b, own);
      forall j | GivesRow(KeysOf(events), j, k) ensures cfg.tableTtlMs(j) <= bound {
        var i :| 0 <= i < |events| && EventOf(events[i], j);
        if i < |events| - 1 {
          assert events[..|events| - 1][i] == events[i];
          assert GivesRow(KeysOf(events[..|events| - 1]), j, k);
        }
      }
    }
  }

  lemma CameBackAllowed(ks: KeySet, cfg: Config, k: Key, start: int, events: seq<Event>, s: State, r: nat)
    requires Run(cfg, Init(start), events, s) && EventsIn(ks, events) && CameBack(s, r, k) && k in ks
    ensures MayComeBack(ks, cfg, k)
  {
    var here: iset<Key> := KeysOf(events) + iset{k};
    forall j | j in here ensures j in ks {
      if j != k { var i :| 0 <= i < |events| && EventOf(events[i], j); assert EventIn(ks, events[i]); }
    }
    var b := KeysOfARun(cfg, k, events);
    var bound := Max(b, cfg.tableTtlMs(k));
    forall j | GivesRow(here, j, k) ensures cfg.tableTtlMs(j) <= bound { assert j == k || GivesRow(KeysOf(events), j, k); }
    assert EventsIn(here, events);
    ReachedAged(here, cfg, k, bound, start, s, r);
    assert MayComeBack(here, cfg, k);
  }

  /**
   * The exact condition for a value that had expired in its tier when it was read to be answered without a refresh later on:
   * that snapshots take the key and memory keeps what they give long enough, or that stale rows are read for it, one can be
   * had, and memory keeps it long enough. In read-only mode any time is long enough.
   */
  lemma StaleComesBackIff(ks: KeySet, cfg: Config, k: Key)
    requires k in ks
    ensures SomeComeBack(cfg, ks, k) <==> MayComeBack(ks, cfg, k)
  {
    if SomeComeBack(cfg, ks, k) {
      var start, s, r :| Reaches(cfg, ks, start, s) && CameBack(s, r, k);
      var events :| Run(cfg, Init(start), events, s) && EventsIn(ks, events);
      CameBackAllowed(ks, cfg, k, start, events, s, r);
    }
    if MayComeBack(ks, cfg, k) { ComesBack(ks, cfg, k); }
  }
}
