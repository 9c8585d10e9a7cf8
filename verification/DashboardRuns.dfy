/**
 * Runs from the empty cache, put together from a few moves, and what they show of whose values are answered: the exact
 * condition for every answer to be its own key's.
 */
module DashboardRuns {
  import opened Options
  import opened CacheKey
  import opened DashboardMemory
  import opened DashboardCache
  import opened DashboardProvenance

  // ---------------------------------------------------------------- moves

  lemma {:induction false} OneMore(cfg: Config, s: State, events: seq<Event>, t: State, e: Event)
    requires Run(cfg, s, events, t) && Enabled(cfg, t, e)
    ensures Run(cfg, s, events + [e], Apply(cfg, t, e))
    decreases |events|
  {
    if events == [] {
      assert [] + [e] == [e] && [e][1..] == [];
    } else {
      OneMore(cfg, Apply(cfg, s, events[0]), events[1..], t, e);
      assert (events + [e])[1..] == events[1..] + [e];
    }
  }

  lemma Starts(cfg: Config, ks: iset<Key>, start: int)
    ensures Reaches(cfg, ks, start, Init(start))
  {
    assert Run(cfg, Init(start), [], Init(start));
  }

  lemma Steps(cfg: Config, ks: iset<Key>, start: int, s: State, e: Event)
    requires Reaches(cfg, ks, start, s) && Enabled(cfg, s, e) && EventIn(ks, e)
    ensures Reaches(cfg, ks, start, Apply(cfg, s, e))
  {
    var events :| Run(cfg, Init(start), events, s) && EventsIn(ks, events);
    OneMore(cfg, Init(start), events, s, e);
    assert EventsIn(ks, events + [e]);
  }

  /** What the loader of the one job gives in every run here. */
  function JobValue(k: Key): Val { Loaded(k, 1, false) }

  /** A precompute job has loaded a key. */
  function AfterJob(cfg: Config, s: State, k: Key): State
    requires s.jobs == [] && s.jobInflight == map[]
  {
    s.(local := PersistDashboardCaches(cfg, s.local, QueryOf(k), JobValue(k), cfg.readonlyTtlMs(k)),
       jobs := [Job(QueryOf(k), JobSettling)], jobInflight := map[BuildDashboardCacheKey(k) := 0], calls := s.calls + [ForJob(0)])
  }

  lemma JobSteps(cfg: Config, s: State, k: Key)
    requires s.jobs == [] && s.jobInflight == map[]
    ensures var s1, s2, o := StartJob(s, QueryOf(k)), CheckJob(StartJob(s, QueryOf(k)), 0, false), Payload(1, false);
      Enabled(cfg, s1, JobChecked(0, false)) && Enabled(cfg, s2, JobEnds(0, o)) && FinishJob(cfg, s2, 0, o) == AfterJob(cfg, s, k)
  {
    var s1 := StartJob(s, QueryOf(k));
    assert s1.jobs == [Job(QueryOf(k), Checking)] && s1.jobInflight == map[BuildDashboardCacheKey(k) := 0];
  }

  lemma JobLoads(cfg: Config, ks: iset<Key>, start: int, s: State, k: Key)
    requires Reaches(cfg, ks, start, s) && k in ks && s.jobs == [] && s.jobInflight == map[]
    ensures Reaches(cfg, ks, start, AfterJob(cfg, s, k))
  {
    var s1 := StartJob(s, QueryOf(k));
    JobSteps(cfg, s, k);
    Steps(cfg, ks, start, s, JobStarts(k));
    Steps(cfg, ks, start, s1, JobChecked(0, false));
    Steps(cfg, ks, start, CheckJob(s1, 0, false), JobEnds(0, Payload(1, false)));
  }

  function Later(s: State, ms: nat): State { s.(local := s.local.(now := s.local.now + ms)) }

  lemma Ticks(cfg: Config, ks: iset<Key>, start: int, s: State, ms: nat)
    requires Reaches(cfg, ks, start, s)
    ensures Reaches(cfg, ks, start, Later(s, ms))
  {
    Steps(cfg, ks, start, s, Tick(ms));
  }

  /** A page asks for a key. */
  function Asked(cfg: Config, s: State, k: Key): State { Begin(cfg, s, Request(k, false, false), QueryOf(k)) }

  lemma Arrives(cfg: Config, ks: iset<Key>, start: int, s: State, k: Key)
    requires Reaches(cfg, ks, start, s) && k in ks
    ensures Reaches(cfg, ks, start, Asked(cfg, s, k))
  {
    Steps(cfg, ks, start, s, Arrive(Request(k, false, false)));
  }

  /** Where memory has nothing live for it, it comes to read the first tier. */
  lemma Misses(cfg: Config, s: State, k: Key)
    requires LiveEntry(s.local, BuildDashboardCacheKey(k)).None? && |Walk(cfg, k)| > 0
    ensures Asked(cfg, s, k) == s.(local := AfterGet(s.local, BuildDashboardCacheKey(k)),
      reqs := s.reqs + [Req(QueryOf(k), false, false, Reading(0))])
  {
    assert (s.reqs + [Req(QueryOf(k), false, false, Reading(0))])[|s.reqs| := Req(QueryOf(k), false, false, Reading(0))]
      == s.reqs + [Req(QueryOf(k), false, false, Reading(0))];
  }

  /** Where it has a value, that is answered. */
  lemma Hits(cfg: Config, s: State, k: Key)
    requires var e := LiveEntry(s.local, BuildDashboardCacheKey(k)); e.Some? && MemoryCounts(cfg, k, e.value)
    ensures var a := MemoryAnswer(cfg, s.local, QueryOf(k), s.local.mem[BuildDashboardCacheKey(k)], |s.reqs|);
      Asked(cfg, s, k) == s.(local := a.local,
        reqs := s.reqs + [Req(QueryOf(k), false, false, Done(Served(a.val, a.refreshPending, a.fill), a.local.now))])
  {
  }

  lemma SetPcTwice(s: State, r: nat, pc: Pc, pc': Pc)
    requires r < |s.reqs|
    ensures SetPc(SetPc(s, r, pc), r, pc') == SetPc(s, r, pc')
    ensures s.reqs[r].pc == pc ==> SetPc(s, r, pc) == s
  {
    assert s.reqs[r := s.reqs[r].(pc := pc)][r := s.reqs[r].(pc := pc')] == s.reqs[r := s.reqs[r].(pc := pc')];
    if s.reqs[r].pc == pc { assert s.reqs[r := s.reqs[r].(pc := pc)] == s.reqs; }
  }

  lemma ReadFails(cfg: Config, s: State, r: nat, i: nat)
    requires r < |s.reqs| && s.reqs[r].pc == Reading(i) && i < |Walk(cfg, s.reqs[r].q.key)|
    ensures ReadStep(cfg, s, r, true, "") == SetPc(s, r, Answered(i, None))
  {
  }

  lemma GoesOn(cfg: Config, s: State, r: nat, i: nat)
    requires r < |s.reqs| && s.reqs[r].pc == Answered(i, None) && i + 1 < |Walk(cfg, s.reqs[r].q.key)|
    ensures Resume(cfg, s, r) == SetPc(s, r, Reading(i + 1))
  {
  }

  /** A tier whose read fails moves the request to the next. */
  lemma SkipsTier(cfg: Config, ks: iset<Key>, start: int, s: State, r: nat, i: nat)
    requires Reaches(cfg, ks, start, s) && r < |s.reqs| && s.reqs[r].pc == Reading(i) && i + 1 < |Walk(cfg, s.reqs[r].q.key)|
    ensures Reaches(cfg, ks, start, SetPc(s, r, Reading(i + 1)))
  {
    ReadFails(cfg, s, r, i);
    Steps(cfg, ks, start, s, ReadTier(r, true, ""));
    GoesOn(cfg, SetPc(s, r, Answered(i, None)), r, i);
    Steps(cfg, ks, start, SetPc(s, r, Answered(i, None)), Continue(r));
    SetPcTwice(s, r, Answered(i, None), Reading(i + 1));
  }

  lemma {:induction false} SkipsTo(cfg: Config, ks: iset<Key>, start: int, s: State, r: nat, i: nat, n: nat)
    requires Reaches(cfg, ks, start, s) && r < |s.reqs| && s.reqs[r].pc == Reading(i) && i <= n < |Walk(cfg, s.reqs[r].q.key)|
    ensures Reaches(cfg, ks, start, SetPc(s, r, Reading(n)))
    decreases n - i
  {
    SetPcTwice(s, r, Reading(i), Reading(n));
    if i < n {
      SkipsTier(cfg, ks, start, s, r, i);
      SkipsTo(cfg, ks, start, SetPc(s, r, Reading(i + 1)), r, i + 1, n);
      SetPcTwice(s, r, Reading(i + 1), Reading(n));
    }
  }

  /** The tier about to be read has this. */
  predicate TierHas(cfg: Config, s: State, r: nat, i: nat, pick: string, f: Found) {
    && r < |s.reqs| && i < |Walk(cfg, s.reqs[r].q.key)|
    && ReadSource(cfg, s, s.reqs[r].q, Walk(cfg, s.reqs[r].q.key)[i].source, pick) == Some(f)
    && ProbeCounts(Walk(cfg, s.reqs[r].q.key)[i], Some(f))
  }

  /** And it is used. */
  function Used(cfg: Config, s: State, r: nat, i: nat, f: Found): State
    requires r < |s.reqs| && i < |Walk(cfg, s.reqs[r].q.key)|
  {
    Reply(s, r, UseHit(cfg, s.local, s.reqs[r].q, Walk(cfg, s.reqs[r].q.key)[i], f, r))
  }

  lemma ReadFinds(cfg: Config, s: State, r: nat, i: nat, pick: string, f: Found)
    requires TierHas(cfg, s, r, i, pick, f) && s.reqs[r].pc == Reading(i)
    ensures ReadStep(cfg, s, r, false, pick) == SetPc(s, r, Answered(i, Some(f)))
  {
  }

  lemma ResumesWith(cfg: Config, s: State, r: nat, i: nat, f: Found)
    requires r < |s.reqs| && s.reqs[r].pc == Answered(i, Some(f)) && i < |Walk(cfg, s.reqs[r].q.key)|
    requires ProbeCounts(Walk(cfg, s.reqs[r].q.key)[i], Some(f))
    ensures Resume(cfg, s, r) == Used(cfg, s, r, i, f)
  {
  }

  lemma UsesTier(cfg: Config, ks: iset<Key>, start: int, s: State, r: nat, i: nat, pick: string, f: Found)
    requires Reaches(cfg, ks, start, s) && TierHas(cfg, s, r, i, pick, f) && s.reqs[r].pc == Reading(i)
    ensures Reaches(cfg, ks, start, Used(cfg, s, r, i, f))
  {
    ReadFinds(cfg, s, r, i, pick, f);
    Steps(cfg, ks, start, s, ReadTier(r, false, pick));
    ResumesWith(cfg, SetPc(s, r, Answered(i, Some(f))), r, i, f);
    Steps(cfg, ks, start, SetPc(s, r, Answered(i, Some(f))), Continue(r));
    UsedAfterRead(cfg, s, r, i, f);
  }

  lemma UsedAfterRead(cfg: Config, s: State, r: nat, i: nat, f: Found)
    requires r < |s.reqs| && i < |Walk(cfg, s.reqs[r].q.key)|
    ensures Used(cfg, SetPc(s, r, Answered(i, Some(f))), r, i, f) == Used(cfg, s, r, i, f)
  {
    var a := UseHit(cfg, s.local, s.reqs[r].q, Walk(cfg, s.reqs[r].q.key)[i], f, r);
    SetPcTwice(s.(local := a.local), r, Answered(i, Some(f)), Done(Served(a.val, a.refreshPending, a.fill), a.local.now));
  }

  /** A request whose read of tier 0 is under way passes over the tiers before the i-th and uses what that one has. */
  lemma ReadsFrom(cfg: Config, ks: iset<Key>, start: int, s: State, r: nat, i: nat, pick: string, f: Found)
    requires Reaches(cfg, ks, start, s) && TierHas(cfg, s, r, i, pick, f) && s.reqs[r].pc == Reading(0)
    ensures Reaches(cfg, ks, start, Used(cfg, s, r, i, f))
  {
    SkipsTo(cfg, ks, start, s, r, 0, i);
    UsesTier(cfg, ks, start, SetPc(s, r, Reading(i)), r, i, pick, f);
    var a := UseHit(cfg, s.local, s.reqs[r].q, Walk(cfg, s.reqs[r].q.key)[i], f, r);
    SetPcTwice(s.(local := a.local), r, Reading(i), Done(Served(a.val, a.refreshPending, a.fill), a.local.now));
  }

  /** A job loads, and its row is written. */
  function AfterRow(cfg: Config, s: State, k: Key): State
    requires s.jobs == [] && s.jobInflight == map[] && cfg.tableEnabled && s.local.tableWrites == []
  {
    WriteRow(cfg, AfterJob(cfg, s, k), 0)
  }

  lemma RowWritten(cfg: Config, ks: iset<Key>, start: int, s: State, k: Key)
    requires Reaches(cfg, ks, start, s) && k in ks && s.jobs == [] && s.jobInflight == map[]
    requires cfg.tableEnabled && s.local.tableWrites == []
    ensures Reaches(cfg, ks, start, AfterRow(cfg, s, k))
  {
    JobLoads(cfg, ks, start, s, k);
    Steps(cfg, ks, start, AfterJob(cfg, s, k), TableWritten(0));
  }

  lemma RowIsThere(cfg: Config, s: State, k: Key)
    requires s.jobs == [] && s.jobInflight == map[] && cfg.tableEnabled && s.local.tableWrites == [] && s.table == map[]
    ensures var t, text := AfterRow(cfg, s, k), BuildDashboardCacheKey(k);
      && t.table == map[text := TableRow(k, JobValue(k), s.local.now, s.local.now + cfg.tableTtlMs(k))]
      && t.local.now == s.local.now && t.reqs == s.reqs && t.local.mem.Keys == s.local.mem.Keys + {text}
  {
    assert AfterJob(cfg, s, k).local.tableWrites == [TableWrite(QueryOf(k), JobValue(k))];
  }

  // ---------------------------------------------------------------- whose values are answered

  /** What is served is what was loaded for this key, or a stand-in that was not loaded at all. */
  predicate ServesItsOwn(q: Req) {
    q.pc.Done? && q.pc.resp.Served? && FromLoader(q.pc.resp.val) ==> q.pc.resp.val.forKey == q.q.key
  }

  ghost predicate AlwaysServesItsOwn(cfg: Config, ks: iset<Key>) {
    forall now, s, r :: Reaches(cfg, ks, now, s) && 0 <= r < |s.reqs| ==> ServesItsOwn(s.reqs[r])
  }

  /** Request `r` is answered with what was loaded for `j`. */
  predicate AnsweredWith(s: State, r: nat, k: Key, j: Key) {
    && r < |s.reqs| && s.reqs[r].q == QueryOf(k)
    && s.reqs[r].pc.Done? && s.reqs[r].pc.resp.Served? && s.reqs[r].pc.resp.val == JobValue(j)
  }

  /** In every configuration, a key that shares its text with another is answered with what was loaded for that one. */
  lemma CollidingKeysShareAValue(cfg: Config, now: int, a: Key, b: Key) returns (s: State)
    requires a != b && BuildDashboardCacheKey(a) == BuildDashboardCacheKey(b)
    ensures Reaches(cfg, iset{a, b}, now, s) && AnsweredWith(s, 1, b, a)
  {
    var ks, s0 := iset{a, b}, Init(now);
    Starts(cfg, ks, now);
    Steps(cfg, ks, now, s0, Arrive(Request(a, true, false)));
    var s1 := Begin(cfg, s0, Request(a, true, false), QueryOf(a));
    Steps(cfg, ks, now, s1, LoaderEnds(0, Payload(1, false)));
    var s2 := FinishLoad(cfg, s1, 0, Payload(1, false));
    assert s2.local.mem[BuildDashboardCacheKey(a)].val == JobValue(a);
    Hits(cfg, s2, b);
    Arrives(cfg, ks, now, s2, b);
    s := Asked(cfg, s2, b);
  }

  /** Such keys exist: a colon in a field moves the boundary between shop and market. */
  lemma UncleanKeysShareAValue(cfg: Config, now: int, k: Key, x: string, y: string, z: string) returns (s: State)
    ensures var a, b := k.(shop := x + ":" + y, market := z), k.(shop := x, market := y + ":" + z);
      a != b && Reaches(cfg, iset{a, b}, now, s) && AnsweredWith(s, 1, b, a)
  {
    var a, b := k.(shop := x + ":" + y, market := z), k.(shop := x, market := y + ":" + z);
    assert |a.shop| > |b.shop|;
    ColonMovesTheBoundary(k, x, y, z);
    s := CollidingKeysShareAValue(cfg, now, a, b);
  }

  lemma DimensionsComeLast(cfg: Config, k: Key)
    requires TrendEndpoint(k.endpoint) && cfg.tableEnabled
    ensures |Walk(cfg, k)| > 0 && Walk(cfg, k)[|Walk(cfg, k)| - 1].source == TableDims
  {
  }

  /** The table holds the row of the job for `j` and nothing else. */
  predicate OnlyRow(s: State, j: Key) {
    var t := BuildDashboardCacheKey(j);
    t in s.table && s.table == map[t := s.table[t]] && s.table[t].dims == j && s.table[t].val == JobValue(j)
  }

  predicate Young(cfg: Config, s: State, j: Key, k: Key)
    requires OnlyRow(s, j)
  {
    s.table[BuildDashboardCacheKey(j)].refreshedAt > s.local.now - cfg.maxStaleMs(k)
  }

  lemma RowFoundByDims(cfg: Config, s: State, r: nat, j: Key)
    requires r < |s.reqs| && TrendEndpoint(s.reqs[r].q.key.endpoint) && SameDims(j, s.reqs[r].q.key) && cfg.tableEnabled
    requires OnlyRow(s, j) && Young(cfg, s, j, s.reqs[r].q.key)
    ensures var t, i := BuildDashboardCacheKey(j), |Walk(cfg, s.reqs[r].q.key)| - 1;
      i >= 0 && TierHas(cfg, s, r, i, t, RowFound(s, t))
  {
    DimensionsComeLast(cfg, s.reqs[r].q.key);
  }

  /**
   * In every configuration with the table on, read-only or not, with or without snapshots: any two trends of the same
   * dimensions, though their texts differ, can come to share a value, through the dimension read.
   */
  lemma TrendKeysCanShareAValue(cfg: Config, now: int, j: Key, k: Key) returns (s: State)
    requires SharesDims(iset{j, k}, cfg, j, k) && BuildDashboardCacheKey(j) != BuildDashboardCacheKey(k)
    ensures Reaches(cfg, iset{j, k}, now, s) && AnsweredWith(s, 0, k, j)
  {
    var ks, s1, t, i := iset{j, k}, AfterRow(cfg, Init(now), j), BuildDashboardCacheKey(j), |Walk(cfg, k)| - 1;
    Starts(cfg, ks, now);
    RowWritten(cfg, ks, now, Init(now), j);
    RowIsThere(cfg, Init(now), j);
    DimensionsComeLast(cfg, k);
    Misses(cfg, s1, k);
    Arrives(cfg, ks, now, s1, k);
    RowFoundByDims(cfg, Asked(cfg, s1, k), 0, j);
    ReadsFrom(cfg, ks, now, Asked(cfg, s1, k), 0, i, t, RowFound(s1, t));
    s := Used(cfg, Asked(cfg, s1, k), 0, i, RowFound(s1, t));
  }

  lemma MoreKeysReach(cfg: Config, ks: iset<Key>, more: iset<Key>, now: int, s: State)
    requires Reaches(cfg, ks, now, s) && ks <= more
    ensures Reaches(cfg, more, now, s)
  {
    var events :| Run(cfg, Init(now), events, s) && EventsIn(ks, events);
    assert EventsIn(more, events);
  }

  lemma NotAlwaysItsOwn(cfg: Config, ks: iset<Key>, a: Key, b: Key)
    requires a in ks && b in ks && a != b
    requires BuildDashboardCacheKey(a) == BuildDashboardCacheKey(b) || SharesDims(ks, cfg, a, b)
    ensures !AlwaysServesItsOwn(cfg, ks)
  {
    if BuildDashboardCacheKey(a) == BuildDashboardCacheKey(b) {
      var s := CollidingKeysShareAValue(cfg, 0, a, b);
      MoreKeysReach(cfg, iset{a, b}, ks, 0, s);
      assert !ServesItsOwn(s.reqs[1]);
    } else {
      var s := TrendKeysCanShareAValue(cfg, 0, a, b);
      MoreKeysReach(cfg, iset{a, b}, ks, 0, s);
      assert !ServesItsOwn(s.reqs[0]);
    }
  }

  lemma ServedIsItsOwn(ks: KeySet, cfg: Config, now: int, s: State, r: nat)
    requires forall j, k :: j in ks && k in ks && SharesDims(ks, cfg, j, k) ==> j == k
    requires Reaches(cfg, ks, now, s) && r < |s.reqs|
    ensures ServesItsOwn(s.reqs[r])
  {
    var events :| Run(cfg, Init(now), events, s) && EventsIn(ks, events);
    RunSound(ks, cfg, Init(now), events, s);
    assert Good(ks, s.reqs[r].q) && PcOk(ks, cfg, s.reqs[r]);
  }

  /** No two of these trends can be mistaken for each other by the dimension read. */
  ghost predicate DimsTellApart(cfg: Config, ks: iset<Key>) {
    forall j, k ::
      j in ks && k in ks && TrendEndpoint(k.endpoint) && SameDims(j, k) && cfg.tableEnabled && cfg.maxStaleMs(k) > 0 ==> j == k
  }

  /**
   * For whatever keys are asked for and in whatever configuration: every answer of every run is its own key's, exactly when no
   * two of the keys have one text and, where the table is on and rows may be stale, no two trends have the same dimensions.
   */
  lemma AlwaysItsOwnIff(cfg: Config, ks: iset<Key>)
    ensures AlwaysServesItsOwn(cfg, ks) <==> Apart(ks) && DimsTellApart(cfg, ks)
  {
    if Apart(ks) && DimsTellApart(cfg, ks) {
      forall now, s, r | Reaches(cfg, ks, now, s) && 0 <= r < |s.reqs| ensures ServesItsOwn(s.reqs[r]) {
        ServedIsItsOwn(ks, cfg, now, s, r);
      }
    }
    if AlwaysServesItsOwn(cfg, ks) {
      forall a, b | a in ks && b in ks && BuildDashboardCacheKey(a) == BuildDashboardCacheKey(b) ensures a == b {
        if a != b { NotAlwaysItsOwn(cfg, ks, a, b); }
      }
      forall j, k | j in ks && k in ks && SharesDims(ks, cfg, j, k) ensures j == k {
        if j != k { NotAlwaysItsOwn(cfg, ks, j, k); }
      }
    }
  }

  /**
   * For the keys whose fields are free of the separators, whose texts are all apart: every answer is its own key's exactly
   * when the dimension read can give no trend a row; and those of them that are no trends never need more.
   */
  lemma CleanKeysServeTheirOwn(cfg: Config)
    ensures AlwaysServesItsOwn(cfg, CleanKeys())
      <==> forall k :: Clean(k) && TrendEndpoint(k.endpoint) && cfg.tableEnabled ==> cfg.maxStaleMs(k) == 0
    ensures AlwaysServesItsOwn(cfg, iset k | Clean(k) && !TrendEndpoint(k.endpoint))
  {
    AlwaysItsOwnIff(cfg, CleanKeys());
    CleanKeysAreApart();
    if DimsTellApart(cfg, CleanKeys()) {
      forall k | Clean(k) && TrendEndpoint(k.endpoint) && cfg.tableEnabled ensures cfg.maxStaleMs(k) == 0 {
        var j := k.(startDate := k.startDate + "x");
        assert j != k by { assert |j.startDate| > |k.startDate|; }
        assert Clean(j) && SameDims(j, k);
      }
    }
    AlwaysItsOwnIff(cfg, iset k | Clean(k) && !TrendEndpoint(k.endpoint));
  }

  // ---------------------------------------------------------------- refreshing near the end

  /**
   * Whether an answer from memory is refreshed is settled when the entry is made: after any part of its life, even in its
   * last millisecond, the answer orders a refresh exactly when the whole life was short.
   */
  lemma RefreshIgnoresTheClock(cfg: Config, now: int, k: Key, d: nat) returns (s: State)
    requires !cfg.readonly && d <= cfg.readonlyTtlMs(k)
    ensures Reaches(cfg, iset{k}, now, s) && s.local.now == now + d && AnsweredWith(s, 0, k, k)
    ensures s.reqs[0].pc.resp.refreshPending <==> cfg.readonlyTtlMs(k) <= cfg.nearMs(k)
    ensures s.local.tasks != [] <==> cfg.readonlyTtlMs(k) <= cfg.nearMs(k)
  {
    var ks, s1 := iset{k}, AfterJob(cfg, Init(now), k);
    Starts(cfg, ks, now);
    JobLoads(cfg, ks, now, Init(now), k);
    Ticks(cfg, ks, now, s1, d);
    Hits(cfg, Later(s1, d), k);
    Arrives(cfg, ks, now, Later(s1, d), k);
    s := Asked(cfg, Later(s1, d), k);
  }
}
