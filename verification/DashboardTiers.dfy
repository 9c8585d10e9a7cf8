/**
 * What a request gets from the tiers behind memory when nothing comes between its reads: one decision on the fields of the
 * row and the snapshot, and what it leaves behind in memory, in the snapshots and for the refresh.
 */
module DashboardTiers {
  import opened Options
  import opened CacheKey
  import opened DashboardMemory
  import opened DashboardCache
  import opened DashboardAge
  import opened DashboardRuns
  import opened MinMax

  predicate OfTrend(k: Key) { k.endpoint in {GmvCompare, OrderVolume, Trend} }

  predicate HasPoints(v: Val) { v.Loaded? && !v.empty }

  // ---------------------------------------------------------------- the rules of the walks

  /**
   * How the tiers are asked. The first read of the table, and outside read-only mode a fresh snapshot unless it is near its
   * end, are final; every other hit orders a refresh. Trends ask a fresh snapshot for points, in read-only mode the first row
   * too. Rows are written to the snapshot, in read-only mode only those of the first read.
   */
  lemma WalkRules(cfg: Config, k: Key, i: nat)
    requires i < |Walk(cfg, k)|
    ensures var p := Walk(cfg, k)[i];
      && (p.refresh == match p.source
            case TableFresh => if i == 0 then Never else Always
            case SnapFresh => if cfg.readonly then Never else IfNear
            case _ => Always)
      && (p.needsData <==> OfTrend(k) && (p.source.SnapFresh? || (cfg.readonly && i == 0 && p.source.TableFresh?)))
      && (p.warms <==> p.source in {TableFresh, TableStale, TableDims} && (!cfg.readonly || i == 0))
  {
  }

  /** Which tiers are asked, and in which order. */
  function Sources(cfg: Config, k: Key): seq<Source> {
    var snaps := if cfg.snapEnabled then [SnapFresh, SnapAny] else [];
    if !cfg.tableEnabled then snaps
    else if OfTrend(k) then [TableFresh] + snaps + [TableFresh, TableStale, TableDims]
    else if cfg.readonly then [TableFresh, TableFresh, TableStale] + snaps
    else [TableFresh] + snaps
  }

  lemma WalkSources(cfg: Config, k: Key)
    ensures |Walk(cfg, k)| == |Sources(cfg, k)|
    ensures forall i :: 0 <= i < |Walk(cfg, k)| ==> Walk(cfg, k)[i].source == Sources(cfg, k)[i]
  {
  }

  // ---------------------------------------------------------------- the walk without anything in between

  /** Read tier by tier until the request is answered or waits for the loader; `pick` is the row the dimension read returns. */
  function Walked(cfg: Config, s: State, r: nat, pick: string): State
    requires r < |s.reqs|
    decreases if s.reqs[r].pc.Reading? && s.reqs[r].pc.i < |Walk(cfg, s.reqs[r].q.key)| then
                |Walk(cfg, s.reqs[r].q.key)| - s.reqs[r].pc.i
              else 0
  {
    if s.reqs[r].pc.Reading? && s.reqs[r].pc.i < |Walk(cfg, s.reqs[r].q.key)| then
      OneTier(cfg, s, r, pick);
      Walked(cfg, Resume(cfg, ReadStep(cfg, s, r, false, pick), r), r, pick)
    else s
  }

  /** What tier `i` has for a query, if it counts. */
  function TierHit(cfg: Config, s: State, q: Query, i: nat, pick: string): Option<Found>
    requires i < |Walk(cfg, q.key)|
  {
    var found := ReadSource(cfg, s, q, Walk(cfg, q.key)[i].source, pick);
    if ProbeCounts(Walk(cfg, q.key)[i], found) then found else None
  }

  lemma OneTier(cfg: Config, s: State, r: nat, pick: string)
    requires r < |s.reqs| && s.reqs[r].pc.Reading? && s.reqs[r].pc.i < |Walk(cfg, s.reqs[r].q.key)|
    ensures HasAnswer(cfg, ReadStep(cfg, s, r, false, pick), r)
    ensures var i, q, t := s.reqs[r].pc.i, s.reqs[r].q, Resume(cfg, ReadStep(cfg, s, r, false, pick), r);
      && |t.reqs| == |s.reqs| && t.reqs[r].q == q
      && (TierHit(cfg, s, q, i, pick).Some? ==> t == Used(cfg, s, r, i, TierHit(cfg, s, q, i, pick).value))
      && (TierHit(cfg, s, q, i, pick).None? ==>
            t == if i + 1 < |Walk(cfg, q.key)| then SetPc(s, r, Reading(i + 1)) else Exhausted(cfg, s, r))
  {
    var i, q := s.reqs[r].pc.i, s.reqs[r].q;
    var found := ReadSource(cfg, s, q, Walk(cfg, q.key)[i].source, pick);
    var s1 := SetPc(s, r, Answered(i, found));
    assert ReadStep(cfg, s, r, false, pick) == s1;
    if TierHit(cfg, s, q, i, pick).Some? {
      UsedAfterRead(cfg, s, r, i, found.value);
    } else if i + 1 < |Walk(cfg, q.key)| {
      SetPcTwice(s, r, Answered(i, found), Reading(i + 1));
    } else {
      ExhaustedAfterRead(cfg, s, r, Answered(i, found));
    }
  }

  lemma ExhaustedAfterRead(cfg: Config, s: State, r: nat, pc: Pc)
    requires r < |s.reqs|
    ensures Exhausted(cfg, SetPc(s, r, pc), r) == Exhausted(cfg, s, r)
    ensures |Exhausted(cfg, s, r).reqs| == |s.reqs| && Exhausted(cfg, s, r).reqs[r].q == s.reqs[r].q
    ensures !Exhausted(cfg, s, r).reqs[r].pc.Reading?
  {
    var q := s.reqs[r].q;
    if cfg.readonly {
      var l := Hint(s.local, q.cacheKey);
      SetPcTwice(s.(local := l), r, pc, Done(Served(MissShape, true, None), l.now));
    } else if TrendEndpoint(q.key.endpoint) {
      var a := EmitTrendPending(cfg, s.local, q, r);
      SetPcTwice(s.(local := a.local), r, pc, Done(Served(a.val, a.refreshPending, a.fill), a.local.now));
    } else {
      SetPcTwice(s, r, pc, Loading);
    }
  }

  /** The first tier from `i` on that has something. */
  function FirstHit(cfg: Config, s: State, q: Query, i: nat, pick: string): nat
    decreases |Walk(cfg, q.key)| - i
  {
    if i >= |Walk(cfg, q.key)| || TierHit(cfg, s, q, i, pick).Some? then i else FirstHit(cfg, s, q, i + 1, pick)
  }

  lemma SameTiers(cfg: Config, s: State, r: nat, pc: Pc, q: Query, i: nat, pick: string)
    requires r < |s.reqs| && i < |Walk(cfg, q.key)|
    ensures TierHit(cfg, SetPc(s, r, pc), q, i, pick) == TierHit(cfg, s, q, i, pick)
  {
  }

  lemma {:induction false} SameFirstHit(cfg: Config, s: State, r: nat, pc: Pc, q: Query, i: nat, pick: string)
    requires r < |s.reqs|
    ensures FirstHit(cfg, SetPc(s, r, pc), q, i, pick) == FirstHit(cfg, s, q, i, pick)
    decreases |Walk(cfg, q.key)| - i
  {
    if i < |Walk(cfg, q.key)| {
      SameTiers(cfg, s, r, pc, q, i, pick);
      SameFirstHit(cfg, s, r, pc, q, i + 1, pick);
    }
  }

  /** Answered by tier `n`, or by none. */
  function EndedAt(cfg: Config, s: State, r: nat, n: nat, pick: string): State
    requires r < |s.reqs|
  {
    var q := s.reqs[r].q;
    if n < |Walk(cfg, q.key)| && TierHit(cfg, s, q, n, pick).Some? then Used(cfg, s, r, n, TierHit(cfg, s, q, n, pick).value)
    else Exhausted(cfg, s, r)
  }

  /** Where in the walk the request stood makes no difference to how it ends. */
  lemma EndsAlike(cfg: Config, s: State, r: nat, i: nat, n: nat, pick: string)
    requires r < |s.reqs|
    ensures EndedAt(cfg, SetPc(s, r, Reading(i)), r, n, pick) == EndedAt(cfg, s, r, n, pick)
  {
    var q := s.reqs[r].q;
    ExhaustedAfterRead(cfg, s, r, Reading(i));
    if n < |Walk(cfg, q.key)| {
      SameTiers(cfg, s, r, Reading(i), q, n, pick);
      if TierHit(cfg, s, q, n, pick).Some? {
        var f := TierHit(cfg, s, q, n, pick).value;
        var a := UseHit(cfg, s.local, q, Walk(cfg, q.key)[n], f, r);
        SetPcTwice(s.(local := a.local), r, Reading(i), Done(Served(a.val, a.refreshPending, a.fill), a.local.now));
      }
    }
  }

  lemma WalkStops(cfg: Config, s: State, r: nat, pick: string)
    requires r < |s.reqs| && !s.reqs[r].pc.Reading?
    ensures Walked(cfg, s, r, pick) == s
  {
  }

  lemma OnAHit(cfg: Config, s: State, r: nat, i: nat, pick: string)
    requires r < |s.reqs| && s.reqs[r].pc == Reading(i) && i < |Walk(cfg, s.reqs[r].q.key)|
    requires TierHit(cfg, s, s.reqs[r].q, i, pick).Some?
    ensures Walked(cfg, s, r, pick) == EndedAt(cfg, s, r, i, pick)
  {
    OneTier(cfg, s, r, pick);
    WalkStops(cfg, EndedAt(cfg, s, r, i, pick), r, pick);
  }

  lemma OnAMiss(cfg: Config, s: State, r: nat, i: nat, pick: string)
    requires r < |s.reqs| && s.reqs[r].pc == Reading(i) && i < |Walk(cfg, s.reqs[r].q.key)|
    requires TierHit(cfg, s, s.reqs[r].q, i, pick).None?
    ensures Walked(cfg, s, r, pick)
      == if i + 1 < |Walk(cfg, s.reqs[r].q.key)| then Walked(cfg, SetPc(s, r, Reading(i + 1)), r, pick)
         else EndedAt(cfg, s, r, i + 1, pick)
  {
    OneTier(cfg, s, r, pick);
    if i + 1 == |Walk(cfg, s.reqs[r].q.key)| {
      ExhaustedAfterRead(cfg, s, r, s.reqs[r].pc);
      WalkStops(cfg, Exhausted(cfg, s, r), r, pick);
    }
  }

  lemma FirstHitStep(cfg: Config, s: State, q: Query, i: nat, pick: string)
    requires i < |Walk(cfg, q.key)|
    ensures FirstHit(cfg, s, q, i, pick) == if TierHit(cfg, s, q, i, pick).Some? then i else FirstHit(cfg, s, q, i + 1, pick)
    ensures FirstHit(cfg, s, q, |Walk(cfg, q.key)|, pick) == |Walk(cfg, q.key)|
  {
  }

  /** The walk ends with the first tier that has something, or behind the last. */
  lemma {:induction false} WalkEndsAtFirstHit(cfg: Config, s: State, r: nat, i: nat, pick: string)
    requires r < |s.reqs| && s.reqs[r].pc == Reading(i) && i < |Walk(cfg, s.reqs[r].q.key)|
    ensures Walked(cfg, s, r, pick) == EndedAt(cfg, s, r, FirstHit(cfg, s, s.reqs[r].q, i, pick), pick)
    decreases |Walk(cfg, s.reqs[r].q.key)| - i
  {
    var q := s.reqs[r].q;
    FirstHitStep(cfg, s, q, i, pick);
    if TierHit(cfg, s, q, i, pick).Some? {
      OnAHit(cfg, s, r, i, pick);
    } else {
      OnAMiss(cfg, s, r, i, pick);
      if i + 1 < |Walk(cfg, q.key)| {
        WalkEndsAtFirstHit(cfg, SetPc(s, r, Reading(i + 1)), r, i + 1, pick);
        SameFirstHit(cfg, s, r, Reading(i + 1), q, i + 1, pick);
        EndsAlike(cfg, s, r, i + 1, FirstHit(cfg, s, q, i + 1, pick), pick);
      }
    }
  }

  // ---------------------------------------------------------------- the decision, on the fields

  /** What the tiers come to: a row or a snapshot, with or without a refresh, or nothing. */
  datatype Verdict = FromRow(text: string, refresh: bool) | FromSnap(refresh: bool) | NoTier

  /** The row under this text, not past its time; or past it, but not too old. */
  predicate RowInTime(cfg: Config, s: State, t: string) {
    cfg.tableEnabled && t in s.table && s.table[t].expiresAt > s.local.now && !s.table[t].val.LoadedNull?
  }

  predicate RowYoung(cfg: Config, s: State, k: Key, t: string) {
    && cfg.tableEnabled && t in s.table && s.table[t].refreshedAt > s.local.now - cfg.maxStaleMs(k)
    && !s.table[t].val.LoadedNull?
  }

  /** The row was written for the same endpoint, tenant, shop, market, filter and range. */
  predicate SameColumns(row: TableRow, k: Key) {
    && row.dims.endpoint == k.endpoint && row.dims.tenant == k.tenant && row.dims.shop == k.shop && row.dims.market == k.market
    && row.dims.orderFilter == k.orderFilter && row.dims.timeRange == k.timeRange
  }

  /** A young row of the same columns, and none of them younger. */
  predicate YoungestLike(cfg: Config, s: State, k: Key, pick: string) {
    && RowYoung(cfg, s, k, pick) && SameColumns(s.table[pick], k)
    && forall t :: t in s.table && SameColumns(s.table[t], k) ==> s.table[t].refreshedAt <= s.table[pick].refreshedAt
  }

  predicate SnapThere(cfg: Config, s: State, k: Key) {
    var t := BuildDashboardCacheKey(k);
    cfg.snapEnabled && k.endpoint != Trend && t in s.snaps && !s.snaps[t].val.LoadedNull?
  }

  predicate SnapInTime(cfg: Config, s: State, k: Key) {
    var t := BuildDashboardCacheKey(k);
    SnapThere(cfg, s, k) && s.snaps[t].expiresAt > s.local.now && (OfTrend(k) ==> HasPoints(s.snaps[t].val))
  }

  /** Read-only mode: a trend's row in time must have points to be taken without a refresh. */
  function ReadonlyVerdict(cfg: Config, s: State, k: Key, pick: string): Verdict {
    var t := BuildDashboardCacheKey(k);
    if RowInTime(cfg, s, t) && (OfTrend(k) ==> HasPoints(s.table[t].val)) then FromRow(t, false)
    else if !OfTrend(k) && RowYoung(cfg, s, k, t) then FromRow(t, true)
    else if SnapInTime(cfg, s, k) then FromSnap(false)
    else if SnapThere(cfg, s, k) then FromSnap(true)
    else if OfTrend(k) && (RowInTime(cfg, s, t) || RowYoung(cfg, s, k, t)) then FromRow(t, true)
    else if OfTrend(k) && YoungestLike(cfg, s, k, pick) then FromRow(pick, true)
    else NoTier
  }

  /** Outside it: a row in time, a snapshot, and on trends a young row, of the key or of its dimensions. */
  function ServingVerdict(cfg: Config, s: State, k: Key, pick: string): Verdict {
    var t := BuildDashboardCacheKey(k);
    if RowInTime(cfg, s, t) then FromRow(t, false)
    else if SnapInTime(cfg, s, k) then FromSnap(s.snaps[t].expiresAt - s.local.now <= cfg.nearMs(k))
    else if SnapThere(cfg, s, k) then FromSnap(true)
    else if OfTrend(k) && RowYoung(cfg, s, k, t) then FromRow(t, true)
    else if OfTrend(k) && YoungestLike(cfg, s, k, pick) then FromRow(pick, true)
    else NoTier
  }

  function TheVerdict(cfg: Config, s: State, k: Key, pick: string): Verdict {
    if cfg.readonly then ReadonlyVerdict(cfg, s, k, pick) else ServingVerdict(cfg, s, k, pick)
  }

  /** The verdict that tier `n` stands for. */
  function VerdictOf(cfg: Config, s: State, q: Query, n: nat, pick: string): Verdict {
    if n < |Walk(cfg, q.key)| && TierHit(cfg, s, q, n, pick).Some? then
      var p, f := Walk(cfg, q.key)[n], TierHit(cfg, s, q, n, pick).value;
      if p.source.SnapFresh? || p.source.SnapAny? then FromSnap(OrdersRefresh(cfg, q.key, p, f))
      else FromRow(if p.source.TableDims? then pick else q.cacheKey, OrdersRefresh(cfg, q.key, p, f))
    else NoTier
  }

  /** What one tier has, on the fields. */
  lemma TierOnFields(cfg: Config, s: State, k: Key, n: nat, pick: string)
    requires n < |Walk(cfg, k)|
    ensures var q, p, t := QueryOf(k), Walk(cfg, k)[n], BuildDashboardCacheKey(k);
      TierHit(cfg, s, q, n, pick).Some? <==>
        match p.source
        case TableFresh => RowInTime(cfg, s, t) && (p.needsData ==> HasPoints(s.table[t].val))
        case TableStale => RowYoung(cfg, s, k, t)
        case TableDims => YoungestLike(cfg, s, k, pick)
        case SnapFresh => SnapThere(cfg, s, k) && s.snaps[t].expiresAt > s.local.now && (p.needsData ==> HasPoints(s.snaps[t].val))
        case SnapAny => SnapThere(cfg, s, k)
  {
    WalkProbes(cfg, k, n);
    WalkSources(cfg, k);
    WalkRules(cfg, k, n);
  }

  /** From tier `i` on: its verdict if it has something, else that of the rest. */
  function VerdictFrom(cfg: Config, s: State, k: Key, i: nat, pick: string): Verdict {
    VerdictOf(cfg, s, QueryOf(k), FirstHit(cfg, s, QueryOf(k), i, pick), pick)
  }

  lemma VerdictStep(cfg: Config, s: State, k: Key, i: nat, pick: string)
    requires i < |Walk(cfg, k)|
    ensures VerdictFrom(cfg, s, k, i, pick)
      == if TierHit(cfg, s, QueryOf(k), i, pick).Some? then VerdictOf(cfg, s, QueryOf(k), i, pick)
         else VerdictFrom(cfg, s, k, i + 1, pick)
    ensures VerdictFrom(cfg, s, k, |Walk(cfg, k)|, pick) == NoTier
  {
    FirstHitStep(cfg, s, QueryOf(k), i, pick);
  }

  /** What tier `i` says when it has something. */
  lemma VerdictOnFields(cfg: Config, s: State, k: Key, i: nat, pick: string)
    requires i < |Walk(cfg, k)| && TierHit(cfg, s, QueryOf(k), i, pick).Some?
    ensures var t, p := BuildDashboardCacheKey(k), Walk(cfg, k)[i];
      VerdictOf(cfg, s, QueryOf(k), i, pick) ==
        match p.source
        case TableFresh => FromRow(t, p.refresh.Always?)
        case TableStale => FromRow(t, true)
        case TableDims => FromRow(pick, true)
        case SnapFresh => FromSnap(!cfg.readonly && s.snaps[t].expiresAt - s.local.now <= cfg.nearMs(k))
        case SnapAny => FromSnap(true)
  {
    TierOnFields(cfg, s, k, i, pick);
    WalkRules(cfg, k, i);
  }

  /** The verdict from tier `i` on, on the fields, given that of the rest. */
  lemma VerdictNext(cfg: Config, s: State, k: Key, i: nat, pick: string, source: Source)
    requires i < |Walk(cfg, k)| && source == Sources(cfg, k)[i]
    ensures |Walk(cfg, k)| == |Sources(cfg, k)| && VerdictFrom(cfg, s, k, |Sources(cfg, k)|, pick) == NoTier
    ensures var t, rest := BuildDashboardCacheKey(k), VerdictFrom(cfg, s, k, i + 1, pick);
      VerdictFrom(cfg, s, k, i, pick) ==
        match source
        case TableFresh =>
          if RowInTime(cfg, s, t) && (cfg.readonly && OfTrend(k) && i == 0 ==> HasPoints(s.table[t].val)) then FromRow(t, i > 0)
          else rest
        case TableStale => if RowYoung(cfg, s, k, t) then FromRow(t, true) else rest
        case TableDims => if YoungestLike(cfg, s, k, pick) then FromRow(pick, true) else rest
        case SnapFresh =>
          if SnapInTime(cfg, s, k) then FromSnap(!cfg.readonly && s.snaps[t].expiresAt - s.local.now <= cfg.nearMs(k)) else rest
        case SnapAny => if SnapThere(cfg, s, k) then FromSnap(true) else rest
  {
    WalkSources(cfg, k);
    WalkRules(cfg, k, i);
    VerdictStep(cfg, s, k, i, pick);
    TierOnFields(cfg, s, k, i, pick);
    if TierHit(cfg, s, QueryOf(k), i, pick).Some? { VerdictOnFields(cfg, s, k, i, pick); }
  }

  lemma ReadonlyTrendVerdict(cfg: Config, s: State, k: Key, pick: string)
    requires cfg.readonly && OfTrend(k) && |Walk(cfg, k)| > 0
    ensures VerdictFrom(cfg, s, k, 0, pick) == ReadonlyVerdict(cfg, s, k, pick)
  {
    WalkSources(cfg, k);
    if cfg.tableEnabled {
      var n := if cfg.snapEnabled then 3 else 1;
      VerdictNext(cfg, s, k, 0, pick, TableFresh);
      if cfg.snapEnabled {
        VerdictNext(cfg, s, k, 1, pick, SnapFresh);
        VerdictNext(cfg, s, k, 2, pick, SnapAny);
      }
      VerdictNext(cfg, s, k, n, pick, TableFresh);
      VerdictNext(cfg, s, k, n + 1, pick, TableStale);
      VerdictNext(cfg, s, k, n + 2, pick, TableDims);
    } else {
      VerdictNext(cfg, s, k, 0, pick, SnapFresh);
      VerdictNext(cfg, s, k, 1, pick, SnapAny);
    }
  }

  lemma ReadonlyPlainVerdict(cfg: Config, s: State, k: Key, pick: string)
    requires cfg.readonly && !OfTrend(k) && |Walk(cfg, k)| > 0
    ensures VerdictFrom(cfg, s, k, 0, pick) == ReadonlyVerdict(cfg, s, k, pick)
  {
    WalkSources(cfg, k);
    var n := if cfg.tableEnabled then 3 else 0;
    if cfg.tableEnabled {
      VerdictNext(cfg, s, k, 0, pick, TableFresh);
      VerdictNext(cfg, s, k, 1, pick, TableFresh);
      VerdictNext(cfg, s, k, 2, pick, TableStale);
    }
    if cfg.snapEnabled {
      VerdictNext(cfg, s, k, n, pick, SnapFresh);
      VerdictNext(cfg, s, k, n + 1, pick, SnapAny);
    }
  }

  lemma TrendVerdict(cfg: Config, s: State, k: Key, pick: string)
    requires !cfg.readonly && OfTrend(k) && |Walk(cfg, k)| > 0
    ensures VerdictFrom(cfg, s, k, 0, pick) == ServingVerdict(cfg, s, k, pick)
  {
    WalkSources(cfg, k);
    if cfg.tableEnabled {
      var n := if cfg.snapEnabled then 3 else 1;
      VerdictNext(cfg, s, k, 0, pick, TableFresh);
      if cfg.snapEnabled {
        VerdictNext(cfg, s, k, 1, pick, SnapFresh);
        VerdictNext(cfg, s, k, 2, pick, SnapAny);
      }
      VerdictNext(cfg, s, k, n, pick, TableFresh);
      VerdictNext(cfg, s, k, n + 1, pick, TableStale);
      VerdictNext(cfg, s, k, n + 2, pick, TableDims);
    } else {
      VerdictNext(cfg, s, k, 0, pick, SnapFresh);
      VerdictNext(cfg, s, k, 1, pick, SnapAny);
    }
  }

  lemma PlainVerdict(cfg: Config, s: State, k: Key, pick: string)
    requires !cfg.readonly && !OfTrend(k) && |Walk(cfg, k)| > 0
    ensures VerdictFrom(cfg, s, k, 0, pick) == ServingVerdict(cfg, s, k, pick)
  {
    WalkSources(cfg, k);
    var n := if cfg.tableEnabled then 1 else 0;
    if cfg.tableEnabled { VerdictNext(cfg, s, k, 0, pick, TableFresh); }
    if cfg.snapEnabled {
      VerdictNext(cfg, s, k, n, pick, SnapFresh);
      VerdictNext(cfg, s, k, n + 1, pick, SnapAny);
    }
  }

  lemma FirstHitIsTheVerdict(cfg: Config, s: State, k: Key, pick: string)
    requires |Walk(cfg, k)| > 0
    ensures VerdictFrom(cfg, s, k, 0, pick) == TheVerdict(cfg, s, k, pick)
  {
    if cfg.readonly {
      if OfTrend(k) { ReadonlyTrendVerdict(cfg, s, k, pick); } else { ReadonlyPlainVerdict(cfg, s, k, pick); }
    } else {
      if OfTrend(k) { TrendVerdict(cfg, s, k, pick); } else { PlainVerdict(cfg, s, k, pick); }
    }
  }

  // ---------------------------------------------------------------- what the request leaves behind

  /** The life memory gives on its own account. */
  function OwnLife(cfg: Config, k: Key): int { if cfg.readonly then cfg.readonlyTtlMs(k) else cfg.ttlMs(k) }

  /** Answered with this value, which memory keeps for `life`; `from` is where it came from. */
  predicate AnswersWith(s: State, s': State, r: nat, v: Val, refresh: bool, life: int, from: Fill)
    requires r < |s.reqs|
  {
    var t := s.reqs[r].q.cacheKey;
    && s'.reqs == s.reqs[r := s.reqs[r].(pc := Done(Served(v, refresh, Some(from)), s.local.now))]
    && s'.local.mem == s.local.mem[t := MemEntry(v, s.local.now + life, life, from)]
    && s'.calls == s.calls && s'.table == s.table && s'.snaps == s.snaps && s'.local.now == s.local.now
  }

  /** The value is sent to its snapshot, if snapshots are on and take the endpoint, and a trend has points. */
  predicate SendsSnapshot(cfg: Config, s: State, s': State, q: Query, v: Val, origin: int) {
    s'.local.snapWrites ==
      if cfg.snapEnabled && q.key.endpoint != Trend && !v.LoadedNull? && (OfTrend(q.key) ==> HasPoints(v)) then
        s.local.snapWrites + [SnapWrite(q, v, s.local.now + cfg.snapTtlMs(q.key), origin)]
      else s.local.snapWrites
  }

  /** A refresh is ordered, unless one is under way; in read-only mode it is hinted. Or nothing of the kind happens. */
  predicate Orders(cfg: Config, s: State, s': State, q: Query, r: nat, refresh: bool) {
    && s'.local.hints == (if refresh && cfg.readonly then s.local.hints[q.cacheKey := s.local.now] else s.local.hints)
    && s'.local.tasks == (if refresh && !cfg.readonly && q.cacheKey !in s.local.inflight then s.local.tasks + [Task(q, Queued, r)]
                          else s.local.tasks)
  }

  /** A row's time left; past its time, the table's own life on trends, else memory's. */
  function RowLife(cfg: Config, s: State, k: Key, row: TableRow): int {
    if row.expiresAt > s.local.now then row.expiresAt - s.local.now else if OfTrend(k) then cfg.tableTtlMs(k) else OwnLife(cfg, k)
  }

  /** A snapshot's time left, outside read-only mode at least what counts as near; past its time, memory's own life. */
  function SnapLife(cfg: Config, s: State, k: Key, file: SnapFile): int {
    if file.expiresAt > s.local.now then
      (if cfg.readonly then file.expiresAt - s.local.now else Max(cfg.nearMs(k), file.expiresAt - s.local.now))
    else OwnLife(cfg, k)
  }

  /** Using what a tier gave, in terms of the tier and of what it gave. */
  lemma UsingATier(cfg: Config, s: State, r: nat, n: nat, f: Found)
    requires r < |s.reqs| && n < |Walk(cfg, s.reqs[r].q.key)|
    ensures var q, p, s' := s.reqs[r].q, Walk(cfg, s.reqs[r].q.key)[n], Used(cfg, s, r, n, f);
      && AnswersWith(s, s', r, f.val, OrdersRefresh(cfg, q.key, p, f), MemTtl(cfg, q.key, p, f.ttlMs),
           Fill(f.origin, f.until, f.readAt, s.local.now, p.refresh.Always?))
      && (if p.warms then SendsSnapshot(cfg, s, s', q, f.val, f.origin) else s'.local.snapWrites == s.local.snapWrites)
      && Orders(cfg, s, s', q, r, OrdersRefresh(cfg, q.key, p, f))
  {
    var q, p := s.reqs[r].q, Walk(cfg, s.reqs[r].q.key)[n];
    HitCommutes(cfg, s.local, q, p, f, r);
    UsingOnOneProcess(cfg, s.local, q, p, f, r);
  }

  lemma UsingOnOneProcess(cfg: Config, l: Local, q: Query, p: Probe, f: Found, r: nat)
    ensures var e, l0 := EntryFrom(cfg, q.key, p, f, l.now), if OrdersRefresh(cfg, q.key, p, f) then Schedule(cfg, l, q, r) else l;
      var l' := HitAfter(cfg, l0, q, p, f);
      && l'.mem == l.mem[q.cacheKey := e] && l'.now == l.now && l'.tasks == l0.tasks && l'.hints == l0.hints
      && l'.snapWrites == (if p.warms then SyncSnapshotWrite(cfg, l, q, f.val, f.origin).snapWrites else l.snapWrites)
  {
  }

  /** What a tier of the table gives, and how it counts. */
  lemma RowTier(cfg: Config, s: State, q: Query, n: nat, pick: string)
    requires q == QueryOf(q.key) && n < |Walk(cfg, q.key)|
    requires TierHit(cfg, s, q, n, pick).Some? && VerdictOf(cfg, s, q, n, pick).FromRow?
    ensures var v, p, f := VerdictOf(cfg, s, q, n, pick), Walk(cfg, q.key)[n], TierHit(cfg, s, q, n, pick).value;
      && v.text in s.table && f == RowFound(s, v.text) && FromTable(p.source)
      && OrdersRefresh(cfg, q.key, p, f) == v.refresh == p.refresh.Always? && (p.warms <==> !cfg.readonly || !v.refresh)
  {
    TierOnFields(cfg, s, q.key, n, pick);
    WalkRules(cfg, q.key, n);
    WalkSources(cfg, q.key);
  }

  lemma RowLives(cfg: Config, s: State, k: Key, t: string, p: Probe)
    requires t in s.table && FromTable(p.source)
    ensures MemTtl(cfg, k, p, RowFound(s, t).ttlMs) == RowLife(cfg, s, k, s.table[t])
  {
  }

  lemma UsingARow(cfg: Config, s: State, r: nat, n: nat, pick: string)
    requires r < |s.reqs| && s.reqs[r].q == QueryOf(s.reqs[r].q.key) && n < |Walk(cfg, s.reqs[r].q.key)|
    requires TierHit(cfg, s, s.reqs[r].q, n, pick).Some? && VerdictOf(cfg, s, s.reqs[r].q, n, pick).FromRow?
    ensures var v := VerdictOf(cfg, s, s.reqs[r].q, n, pick);
      v.text in s.table && ByRow(cfg, s, EndedAt(cfg, s, r, n, pick), r, s.table[v.text], v.refresh)
  {
    var q, v := s.reqs[r].q, VerdictOf(cfg, s, s.reqs[r].q, n, pick);
    RowTier(cfg, s, q, n, pick);
    RowLives(cfg, s, q.key, v.text, Walk(cfg, q.key)[n]);
    UsingATier(cfg, s, r, n, RowFound(s, v.text));
  }

  /** What a tier of the snapshots gives. */
  lemma SnapTierGives(cfg: Config, s: State, q: Query, n: nat, pick: string)
    requires q == QueryOf(q.key) && n < |Walk(cfg, q.key)|
    requires TierHit(cfg, s, q, n, pick).Some? && VerdictOf(cfg, s, q, n, pick).FromSnap?
    ensures var v, p, f := VerdictOf(cfg, s, q, n, pick), Walk(cfg, q.key)[n], TierHit(cfg, s, q, n, pick).value;
      && q.cacheKey in s.snaps && f == SnapFound(s, q.cacheKey) && (p.source.SnapFresh? || p.source.SnapAny?)
      && OrdersRefresh(cfg, q.key, p, f) == v.refresh && !p.warms && (p.refresh.Always? ==> v.refresh)
  {
    TierOnFields(cfg, s, q.key, n, pick);
    WalkRules(cfg, q.key, n);
  }

  lemma SnapLives(cfg: Config, s: State, k: Key, t: string, p: Probe)
    requires t in s.snaps && (p.source.SnapFresh? || p.source.SnapAny?)
    ensures MemTtl(cfg, k, p, SnapFound(s, t).ttlMs) == SnapLife(cfg, s, k, s.snaps[t])
  {
  }

  lemma UsingASnapshot(cfg: Config, s: State, r: nat, n: nat, pick: string)
    requires r < |s.reqs| && s.reqs[r].q == QueryOf(s.reqs[r].q.key) && n < |Walk(cfg, s.reqs[r].q.key)|
    requires TierHit(cfg, s, s.reqs[r].q, n, pick).Some? && VerdictOf(cfg, s, s.reqs[r].q, n, pick).FromSnap?
    ensures var q, v := s.reqs[r].q, VerdictOf(cfg, s, s.reqs[r].q, n, pick);
      q.cacheKey in s.snaps && BySnap(cfg, s, EndedAt(cfg, s, r, n, pick), r, s.snaps[q.cacheKey], v.refresh)
  {
    var q := s.reqs[r].q;
    SnapTierGives(cfg, s, q, n, pick);
    SnapLives(cfg, s, q.key, q.cacheKey, Walk(cfg, q.key)[n]);
    UsingATier(cfg, s, r, n, SnapFound(s, q.cacheKey));
  }

  /** The request is answered by this row. */
  predicate ByRow(cfg: Config, s: State, s': State, r: nat, row: TableRow, refresh: bool)
    requires r < |s.reqs|
  {
    var q := s.reqs[r].q;
    && AnswersWith(s, s', r, row.val, refresh, RowLife(cfg, s, q.key, row),
         Fill(row.refreshedAt, row.expiresAt, s.local.now, s.local.now, refresh))
    && (if cfg.readonly && refresh then s'.local.snapWrites == s.local.snapWrites
        else SendsSnapshot(cfg, s, s', q, row.val, row.refreshedAt))
    && Orders(cfg, s, s', q, r, refresh)
  }

  /** By this snapshot, whose write is not repeated. */
  predicate BySnap(cfg: Config, s: State, s': State, r: nat, file: SnapFile, refresh: bool)
    requires r < |s.reqs|
  {
    var q := s.reqs[r].q;
    && (exists always: bool :: (always ==> refresh) && AnswersWith(s, s', r, file.val, refresh, SnapLife(cfg, s, q.key, file),
          Fill(file.origin, file.expiresAt, s.local.now, s.local.now, always)))
    && s'.local.snapWrites == s.local.snapWrites && Orders(cfg, s, s', q, r, refresh)
  }

  /**
   * By none. In read-only mode the miss shape, and a hint. Outside it a trend orders its refresh and is answered from memory if
   * that has points by now, else with the placeholder, marked as pending for a while; any other request calls the loader.
   */
  predicate ByNone(cfg: Config, s: State, s': State, r: nat)
    requires r < |s.reqs|
  {
    var q, now := s.reqs[r].q, s.local.now;
    var t := q.cacheKey;
    && s'.table == s.table && s'.snaps == s.snaps && s'.local.now == now
    && (cfg.readonly ==>
          && s'.reqs == s.reqs[r := s.reqs[r].(pc := Done(Served(MissShape, true, None), now))]
          && s'.local == s.local.(hints := s.local.hints[t := now]) && s'.calls == s.calls)
    && (!cfg.readonly && !OfTrend(q.key) ==>
          && s'.reqs == s.reqs[r := s.reqs[r].(pc := Loading)] && s'.local == s.local && s'.calls == s.calls + [ForRequest(r)])
    && (!cfg.readonly && OfTrend(q.key) ==>
          && s'.calls == s.calls
          && s'.local.tasks == (if t in s.local.inflight then s.local.tasks else s.local.tasks + [Task(q, Queued, r)])
          && if t in s.local.mem && now <= s.local.mem[t].exp && HasPoints(s.local.mem[t].val) then
               var e := s.local.mem[t];
               && s'.reqs == s.reqs[r := s.reqs[r].(pc := Done(Served(e.val, e.ttlMs <= cfg.nearMs(q.key), Some(e.fill)), now))]
               && s'.local.mem == s.local.mem && SendsSnapshot(cfg, s, s', q, e.val, e.fill.origin)
               && s'.local.pendingUntil == s.local.pendingUntil
             else
               && s'.reqs == s.reqs[r := s.reqs[r].(pc := Done(Served(Placeholder, true, None), now))]
               && s'.local.pendingUntil == s.local.pendingUntil[t := now + cfg.pendingMaxMs]
               && s'.local.snapWrites == s.local.snapWrites)
  }

  predicate PointsInMemory(l: Local, t: string) { t in l.mem && l.now <= l.mem[t].exp && HasPoints(l.mem[t].val) }

  /** A memory hit while a refresh is under way orders no other. */
  lemma EmitWhileInFlight(cfg: Config, l: Local, q: Query, e: MemEntry, r: nat)
    requires !cfg.readonly && q.cacheKey in l.inflight
    ensures EmitMemory(cfg, l, q, e, r)
      == Answer(SyncSnapshotWrite(cfg, l, q, e.val, e.fill.origin), e.val, e.ttlMs <= cfg.nearMs(q.key), Some(e.fill))
  {
  }

  lemma PendingTrendHit(cfg: Config, l: Local, q: Query, r: nat)
    requires !cfg.readonly && PointsInMemory(l, q.cacheKey)
    ensures var a, t := EmitTrendPending(cfg, l, q, r), q.cacheKey;
      var e := l.mem[t];
      && a.local.now == l.now && a.local.tasks == (if t in l.inflight then l.tasks else l.tasks + [Task(q, Queued, r)])
      && a.val == e.val && a.refreshPending == (e.ttlMs <= cfg.nearMs(q.key)) && a.fill == Some(e.fill)
      && a.local.mem == l.mem && a.local.pendingUntil == l.pendingUntil
      && a.local.snapWrites == SyncSnapshotWrite(cfg, l, q, e.val, e.fill.origin).snapWrites
  {
    var l1 := if q.cacheKey in l.inflight then l else Schedule(cfg, l, q, r);
    assert q.cacheKey in l1.inflight && l1.mem == l.mem && l1.now == l.now && AfterGet(l1, q.cacheKey) == l1;
    assert LiveEntry(l1, q.cacheKey) == Some(l.mem[q.cacheKey]);
    EmitWhileInFlight(cfg, l1, q, l.mem[q.cacheKey], r);
  }

  lemma PendingTrendMiss(cfg: Config, l: Local, q: Query, r: nat)
    requires !cfg.readonly && !PointsInMemory(l, q.cacheKey)
    ensures var a, t := EmitTrendPending(cfg, l, q, r), q.cacheKey;
      && a.local.now == l.now && a.local.tasks == (if t in l.inflight then l.tasks else l.tasks + [Task(q, Queued, r)])
      && a.val == Placeholder && a.refreshPending && a.fill == None
      && a.local.pendingUntil == l.pendingUntil[t := l.now + cfg.pendingMaxMs] && a.local.snapWrites == l.snapWrites
  {
  }

  lemma UsingNone(cfg: Config, s: State, r: nat)
    requires r < |s.reqs|
    ensures ByNone(cfg, s, Exhausted(cfg, s, r), r)
  {
    var q := s.reqs[r].q;
    if !cfg.readonly && OfTrend(q.key) {
      if PointsInMemory(s.local, q.cacheKey) { PendingTrendHit(cfg, s.local, q, r); } else { PendingTrendMiss(cfg, s.local, q, r); }
    }
  }

  /**
   * A request that reads the tiers with nothing in between: whatever the table and the snapshots hold, in whatever mode, it is
   * answered by what the verdict on their fields names, or by none.
   */
  lemma TheWalkGivesTheVerdict(cfg: Config, s: State, r: nat, pick: string)
    requires r < |s.reqs| && s.reqs[r].pc == Reading(0) && s.reqs[r].q == QueryOf(s.reqs[r].q.key)
    requires cfg.tableEnabled || cfg.snapEnabled
    ensures var q, s' := s.reqs[r].q, Walked(cfg, s, r, pick);
      match TheVerdict(cfg, s, q.key, pick)
      case FromRow(t, refresh) => t in s.table && ByRow(cfg, s, s', r, s.table[t], refresh)
      case FromSnap(refresh) => q.cacheKey in s.snaps && BySnap(cfg, s, s', r, s.snaps[q.cacheKey], refresh)
      case NoTier => ByNone(cfg, s, s', r)
  {
    var q := s.reqs[r].q;
    WalkSources(cfg, q.key);
    WalkEndsAtFirstHit(cfg, s, r, 0, pick);
    FirstHitIsTheVerdict(cfg, s, q.key, pick);
    var n := FirstHit(cfg, s, q, 0, pick);
    match TheVerdict(cfg, s, q.key, pick)
    case FromRow(_, _) => UsingARow(cfg, s, r, n, pick);
    case FromSnap(_) => UsingASnapshot(cfg, s, r, n, pick);
    case NoTier => UsingNone(cfg, s, r);
  }
}
