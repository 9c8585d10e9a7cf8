/**
 * The part of the dashboard cache that lives in one process: the memory Map, the Map of refreshes under way, the
 * pending markers, the hints, and the writes it has sent to the table and to the snapshot files. The Maps are keyed by
 * the text of a request's key.
 *
 * For the theorems a payload is tagged with the key its loader was called for, and an entry with where its time to live
 * came from. Times to live are given functions of the key.
 */
module DashboardMemory {
  import opened Options
  import opened CacheKey

  /** What can stand in a tier or in a response. A loader's null counts as a value, a placeholder or a miss shape does not. */
  datatype Val =
    | Loaded(forKey: Key, id: int, empty: bool)
    | LoadedNull(forKey: Key)
    | Placeholder
    | MissShape

  type Ttl = n: int | n > 0 witness 1

  datatype Config = Config(
    readonly: bool,
    tableEnabled: bool,
    snapEnabled: bool,
    ttlMs: Key -> Ttl,
    readonlyTtlMs: Key -> Ttl,
    tableTtlMs: Key -> Ttl,
    snapTtlMs: Key -> Ttl,
    nearMs: Key -> nat,
    maxStaleMs: Key -> nat,
    pendingMaxMs: nat)

  /**
   * Where a value came from: a tier that gave it until `until`, read at `readAt` and put to use at `usedAt`, asked in a place
   * that `always` orders a refresh; or a loader. `origin` is when the value was loaded, for one that has been in the table
   * when its row was written.
   */
  datatype Fill = Fill(origin: int, until: int, readAt: int, usedAt: int, always: bool)

  datatype MemEntry = MemEntry(val: Val, exp: int, ttlMs: int, fill: Fill)

  datatype TableWrite = TableWrite(q: Query, val: Val)

  datatype SnapWrite = SnapWrite(q: Query, val: Val, expiresAt: int, origin: int)

  datatype TaskPc = Queued | Running | Settling | Settled

  /** One background refresh, scheduled by request `owner`. */
  datatype Task = Task(q: Query, pc: TaskPc, owner: nat)

  datatype Local = Local(
    now: int,
    mem: map<string, MemEntry>,
    inflight: map<string, nat>,           // to the number of its task
    tasks: seq<Task>,
    pendingUntil: map<string, int>,
    hints: map<string, int>,
    tableWrites: seq<TableWrite>,         // sent, not yet carried out
    snapWrites: seq<SnapWrite>)

  predicate TrendEndpoint(e: Endpoint) { e.GmvCompare? || e.OrderVolume? || e.Trend? }

  predicate SnapshotEndpoint(e: Endpoint) { !e.Trend? }

  predicate NonNull(v: Val) { !v.LoadedNull? }

  /** trendPayloadIsEmpty: a null, a placeholder and a miss shape carry no points. */
  predicate HasData(v: Val) { v.Loaded? && !v.empty }

  // ---------------------------------------------------------------- the memory Map

  function LiveEntry(l: Local, t: string): Option<MemEntry> {
    if t in l.mem && l.now <= l.mem[t].exp then Some(l.mem[t]) else None
  }

  /** Looking up an entry past its time deletes it. */
  function AfterGet(l: Local, t: string): Local {
    if t in l.mem && l.now > l.mem[t].exp then l.(mem := l.mem - {t}) else l
  }

  function CacheSet(l: Local, t: string, v: Val, ttl: int, fill: Fill): Local {
    l.(mem := l.mem[t := MemEntry(v, l.now + ttl, ttl, fill)])
  }

  /** A loader's value is its own source, and lasts as long as memory is told to keep it. */
  function FreshFill(l: Local, ttl: int): Fill { Fill(l.now, l.now + ttl, l.now, l.now, false) }

  // ---------------------------------------------------------------- writing through

  predicate ShouldPersistSnapshot(cfg: Config, k: Key, v: Val) {
    cfg.snapEnabled && SnapshotEndpoint(k.endpoint) && NonNull(v) && (TrendEndpoint(k.endpoint) ==> HasData(v))
  }

  function SyncSnapshotWrite(cfg: Config, l: Local, q: Query, v: Val, origin: int): Local {
    if ShouldPersistSnapshot(cfg, q.key, v) then
      l.(snapWrites := l.snapWrites + [SnapWrite(q, v, l.now + cfg.snapTtlMs(q.key), origin)])
    else l
  }

  function PersistDashboardCaches(cfg: Config, l: Local, q: Query, v: Val, ttl: int): Local {
    var l1 := CacheSet(l, q.cacheKey, v, ttl, FreshFill(l, ttl));
    var l2 := if cfg.tableEnabled then l1.(tableWrites := l1.tableWrites + [TableWrite(q, v)]) else l1;
    SyncSnapshotWrite(cfg, l2, q, v, l.now)
  }

  // ---------------------------------------------------------------- background refresh

  function Hint(l: Local, t: string): Local { l.(hints := l.hints[t := l.now]) }

  function Schedule(cfg: Config, l: Local, q: Query, owner: nat): Local {
    if cfg.readonly then Hint(l, q.cacheKey)
    else if q.cacheKey in l.inflight then l
    else l.(inflight := l.inflight[q.cacheKey := |l.tasks|], tasks := l.tasks + [Task(q, Queued, owner)])
  }

  /** The refresh has called its loader, which gave `v`. */
  function TaskLoaded(cfg: Config, l: Local, t: nat, v: Val): Local
    requires t < |l.tasks|
  {
    var q := l.tasks[t].q;
    var l1 := PersistDashboardCaches(cfg, l, q, v, cfg.ttlMs(q.key));
    l1.(pendingUntil := l1.pendingUntil - {q.cacheKey}, tasks := l1.tasks[t := l1.tasks[t].(pc := Settling)])
  }

  /** The last step of a refresh, after success and after failure. */
  function TaskSettled(l: Local, t: nat): Local
    requires t < |l.tasks|
  {
    var k := l.tasks[t].q.cacheKey;
    l.(inflight := l.inflight - {k}, pendingUntil := l.pendingUntil - {k}, tasks := l.tasks[t := l.tasks[t].(pc := Settled)])
  }

  function MarkPending(cfg: Config, l: Local, t: string): Local {
    l.(pendingUntil := l.pendingUntil[t := l.now + cfg.pendingMaxMs])
  }

  predicate Near(cfg: Config, k: Key, remainingMs: int) { remainingMs <= 0 || remainingMs <= cfg.nearMs(k) }

  // ---------------------------------------------------------------- answers

  /** `fill` is where the value came from, if it is one. */
  datatype Answer = Answer(local: Local, val: Val, refreshPending: bool, fill: Option<Fill>)

  /**
   * A memory hit outside read-only mode: write it to the snapshot, and refresh it when its time to live is short. What is
   * compared is the whole time it was given, not what is left of it.
   */
  function EmitMemory(cfg: Config, l: Local, q: Query, e: MemEntry, owner: nat): Answer {
    var l1 := SyncSnapshotWrite(cfg, l, q, e.val, e.fill.origin);
    var near := Near(cfg, q.key, e.ttlMs);
    Answer(if near then Schedule(cfg, l1, q, owner) else l1, e.val, near, Some(e.fill))
  }

  /** All tiers of a trend missed: refresh unless one is under way, look at memory once more, else answer a placeholder. */
  function EmitTrendPending(cfg: Config, l: Local, q: Query, owner: nat): Answer {
    var l1 := if q.cacheKey in l.inflight then l else Schedule(cfg, l, q, owner);
    var e := LiveEntry(l1, q.cacheKey);
    var l2 := AfterGet(l1, q.cacheKey);
    if e.Some? && NonNull(e.value.val) && HasData(e.value.val) then EmitMemory(cfg, l2, q, e.value, owner)
    else Answer(MarkPending(cfg, l2, q.cacheKey), Placeholder, true, None)
  }

  // ---------------------------------------------------------------- the same, as the process runs it

  class Process {
    var now: int
    var mem: map<string, MemEntry>
    var inflight: map<string, nat>
    var tasks: seq<Task>
    var pendingUntil: map<string, int>
    var hints: map<string, int>
    var tableWrites: seq<TableWrite>
    var snapWrites: seq<SnapWrite>
    const cfg: Config

    constructor (cfg: Config, now: int)
      ensures this.cfg == cfg && View() == Local(now, map[], map[], [], map[], map[], [], [])
    {
      this.cfg := cfg;
      this.now := now;
      mem, inflight, pendingUntil, hints := map[], map[], map[], map[];
      tasks, tableWrites, snapWrites := [], [], [];
    }

    function View(): Local
      reads this
    {
      Local(now, mem, inflight, tasks, pendingUntil, hints, tableWrites, snapWrites)
    }

    method Get(t: string) returns (e: Option<MemEntry>)
      modifies this`mem
      ensures e == LiveEntry(old(View()), t) && View() == AfterGet(old(View()), t)
      ensures e.Some? <==> t in mem
    {
      if t !in mem { return None; }
      if now > mem[t].exp {
        mem := mem - {t};
        return None;
      }
      e := Some(mem[t]);
    }

    method Set(t: string, v: Val, ttl: int, fill: Fill)
      modifies this`mem
      ensures View() == CacheSet(old(View()), t, v, ttl, fill)
      ensures forall u :: u != t ==> LiveEntry(View(), u) == LiveEntry(old(View()), u)
    {
      mem := mem[t := MemEntry(v, now + ttl, ttl, fill)];
    }

    method SyncSnapshot(q: Query, v: Val, origin: int)
      modifies this`snapWrites
      ensures View() == SyncSnapshotWrite(cfg, old(View()), q, v, origin)
      ensures |snapWrites| > |old(snapWrites)| ==> SnapshotEndpoint(q.key.endpoint) && snapWrites[|snapWrites| - 1].val == v
    {
      if !cfg.snapEnabled || !SnapshotEndpoint(q.key.endpoint) { return; }
      if v.LoadedNull? { return; }
      if TrendEndpoint(q.key.endpoint) && !HasData(v) { return; }
      snapWrites := snapWrites + [SnapWrite(q, v, now + cfg.snapTtlMs(q.key), origin)];
    }

    method Persist(q: Query, v: Val, ttl: int)
      modifies this`mem, this`tableWrites, this`snapWrites
      ensures View() == PersistDashboardCaches(cfg, old(View()), q, v, ttl)
      ensures q.cacheKey in mem && mem[q.cacheKey].val == v
    {
      Set(q.cacheKey, v, ttl, Fill(now, now + ttl, now, now, false));
      if cfg.tableEnabled { tableWrites := tableWrites + [TableWrite(q, v)]; }
      SyncSnapshot(q, v, now);
    }

    method ScheduleBackgroundRefresh(q: Query, owner: nat)
      modifies this`hints, this`inflight, this`tasks
      ensures View() == Schedule(cfg, old(View()), q, owner)
      ensures if cfg.readonly then q.cacheKey in hints && tasks == old(tasks) else q.cacheKey in inflight
    {
      if cfg.readonly {
        hints := hints[q.cacheKey := now];
        return;
      }
      if q.cacheKey in inflight { return; }
      tasks := tasks + [Task(q, Queued, owner)];
      inflight := inflight[q.cacheKey := |tasks| - 1];
    }

    method OnTaskLoaded(t: nat, v: Val)
      requires t < |tasks|
      modifies this
      ensures View() == TaskLoaded(cfg, old(View()), t, v)
    {
      var q := tasks[t].q;
      Persist(q, v, cfg.ttlMs(q.key));
      pendingUntil := pendingUntil - {q.cacheKey};
      tasks := tasks[t := tasks[t].(pc := Settling)];
    }

    method OnTaskSettled(t: nat)
      requires t < |tasks|
      modifies this`inflight, this`pendingUntil, this`tasks
      ensures View() == TaskSettled(old(View()), t)
      ensures tasks[t].q.cacheKey !in inflight && tasks[t].q.cacheKey !in pendingUntil
    {
      var k := tasks[t].q.cacheKey;
      inflight := inflight - {k};
      pendingUntil := pendingUntil - {k};
      tasks := tasks[t := tasks[t].(pc := Settled)];
    }

    method AnswerFromMemory(q: Query, e: MemEntry, owner: nat) returns (v: Val, refreshPending: bool, fill: Option<Fill>)
      modifies this
      ensures Answer(View(), v, refreshPending, fill) == EmitMemory(cfg, old(View()), q, e, owner)
    {
      SyncSnapshot(q, e.val, e.fill.origin);
      v, refreshPending, fill := e.val, Near(cfg, q.key, e.ttlMs), Some(e.fill);
      if refreshPending { ScheduleBackgroundRefresh(q, owner); }
    }

    method AnswerTrendPending(q: Query, owner: nat) returns (v: Val, refreshPending: bool, fill: Option<Fill>)
      modifies this
      ensures Answer(View(), v, refreshPending, fill) == EmitTrendPending(cfg, old(View()), q, owner)
      ensures HasData(v) || (v == Placeholder && refreshPending && q.cacheKey in pendingUntil)
    {
      if q.cacheKey !in inflight { ScheduleBackgroundRefresh(q, owner); }
      var e := Get(q.cacheKey);
      if e.Some? && NonNull(e.value.val) && HasData(e.value.val) {
        v, refreshPending, fill := AnswerFromMemory(q, e.value, owner);
        return;
      }
      pendingUntil := pendingUntil[q.cacheKey := now + cfg.pendingMaxMs];
      v, refreshPending, fill := Placeholder, true, None;
    }
  }
}
