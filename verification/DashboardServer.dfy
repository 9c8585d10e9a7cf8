/**
 * The server as it runs: one process with its Maps, the requests and jobs under way in it, and the table and files it
 * writes to. Each method is what happens between two awaits; a driver resumes whatever it likes, in any order.
 */
module DashboardServer {
  import opened Options
  import opened CacheKey
  import opened DashboardMemory
  import opened DashboardCache
  import opened DashboardProvenance
  import opened DashboardFreshness
  import opened DashboardRefresh
  import opened DashboardRuns

  class Server {
    const process: Process
    var table: map<string, TableRow>
    var snaps: map<string, SnapFile>
    var reqs: seq<Req>
    var jobs: seq<Job>
    var jobInflight: map<string, nat>
    var calls: seq<Caller>

    constructor (cfg: Config, now: int)
      ensures fresh(process) && process.cfg == cfg && View() == Init(now)
    {
      process := new Process(cfg, now);
      table, snaps, jobInflight := map[], map[], map[];
      reqs, jobs, calls := [], [], [];
    }

    function View(): State
      reads this, process
    {
      State(process.View(), table, snaps, reqs, jobs, jobInflight, calls)
    }

    // ---------------------------------------------------------------- requests

    method Answered(r: nat, v: Val, refreshPending: bool, fill: Option<Fill>)
      requires r < |reqs|
      modifies this`reqs
      ensures View() == DashboardCache.Reply(old(View()), r, Answer(process.View(), v, refreshPending, fill))
    {
      reqs := reqs[r := reqs[r].(pc := Done(Served(v, refreshPending, fill), process.now))];
    }

    method CallLoader(r: nat)
      requires r < |reqs|
      modifies this`reqs, this`calls
      ensures View() == DashboardCache.CallLoader(old(View()), r)
    {
      reqs := reqs[r := reqs[r].(pc := Loading)];
      calls := calls + [ForRequest(r)];
    }

    /** On to the i-th tier, or behind the last. */
    method Proceed(r: nat, i: nat)
      requires r < |reqs|
      modifies this`reqs, this`calls, process
      ensures View() == DashboardCache.Proceed(process.cfg, old(View()), r, i)
    {
      var cfg, q := process.cfg, reqs[r].q;
      if i < |Walk(cfg, q.key)| {
        reqs := reqs[r := reqs[r].(pc := Reading(i))];
      } else if cfg.readonly {
        process.hints := process.hints[q.cacheKey := process.now];
        Answered(r, MissShape, true, None);
      } else if TrendEndpoint(q.key.endpoint) {
        var v, refreshPending, fill := process.AnswerTrendPending(q, r);
        Answered(r, v, refreshPending, fill);
      } else {
        CallLoader(r);
      }
    }

    /** A request arrives: past the cache to the loader, or memory, or the first tier. */
    method Serve(info: Request)
      modifies this`reqs, this`calls, process
      ensures View() == Begin(process.cfg, old(View()), info, QueryOf(info.key))
    {
      var r, q := |reqs|, QueryOf(info.key);
      reqs := reqs + [Req(q, info.pipeline, info.bypassParam, Reading(0))];
      if Bypasses(process.cfg, info.pipeline, info.bypassParam) {
        CallLoader(r);
        return;
      }
      var e := process.Get(q.cacheKey);
      if e.Some? && MemoryCounts(process.cfg, q.key, e.value) {
        if process.cfg.readonly {
          process.SyncSnapshot(q, e.value.val, e.value.fill.origin);
          Answered(r, e.value.val, false, Some(e.value.fill));
        } else {
          var v, refreshPending, fill := process.AnswerFromMemory(q, e.value, r);
          Answered(r, v, refreshPending, fill);
        }
      } else {
        Proceed(r, 0);
      }
    }

    /** A tier has been read: use what it gave, or go on. */
    method Resume(r: nat)
      requires HasAnswer(process.cfg, View(), r)
      modifies this`reqs, this`calls, process
      ensures View() == DashboardCache.Resume(process.cfg, old(View()), r)
    {
      var cfg, q, pc := process.cfg, reqs[r].q, reqs[r].pc;
      var p := Walk(cfg, q.key)[pc.i];
      if !ProbeCounts(p, pc.found) {
        Proceed(r, pc.i + 1);
        return;
      }
      var f := pc.found.value;
      var fill := Fill(f.origin, f.until, f.readAt, process.now, p.refresh.Always?);
      process.Set(q.cacheKey, f.val, MemTtl(cfg, q.key, p, f.ttlMs), fill);
      if p.warms { process.SyncSnapshot(q, f.val, f.origin); }
      var refresh := p.refresh.Always? || (p.refresh.IfNear? && Near(cfg, q.key, f.ttlMs));
      if refresh { process.ScheduleBackgroundRefresh(q, r); }
      Answered(r, f.val, refresh, Some(fill));
    }

    method LoaderEnded(r: nat, o: Outcome)
      requires r < |reqs|
      modifies this`reqs, process
      ensures View() == FinishLoad(process.cfg, old(View()), r, o)
    {
      if o.Throws? {
        reqs := reqs[r := reqs[r].(pc := Done(Errored, process.now))];
        return;
      }
      var q := reqs[r].q;
      var ttl := process.cfg.ttlMs(q.key);
      process.Persist(q, Tag(o, q.key), ttl);
      Answered(r, Tag(o, q.key), false, Some(Fill(process.now, process.now + ttl, process.now, process.now, false)));
    }

    // ---------------------------------------------------------------- background refreshes and precompute jobs

    method TaskEnded(t: nat, o: Outcome)
      requires t < |process.tasks|
      modifies process
      ensures View() == FinishTask(process.cfg, old(View()), t, o)
    {
      if o.Throws? {
        process.tasks := process.tasks[t := process.tasks[t].(pc := Settling)];
      } else {
        process.OnTaskLoaded(t, Tag(o, process.tasks[t].q.key));
      }
    }

    method RunPrecomputeJob(q: Query)
      modifies this`jobs, this`jobInflight
      ensures View() == StartJob(old(View()), q)
    {
      if q.cacheKey in jobInflight { return; }
      jobs := jobs + [Job(q, Checking)];
      jobInflight := jobInflight[q.cacheKey := |jobs| - 1];
    }

    method JobChecked(j: nat, isFresh: bool)
      requires j < |jobs|
      modifies this`jobs, this`calls
      ensures View() == CheckJob(old(View()), j, isFresh)
    {
      jobs := jobs[j := jobs[j].(pc := if isFresh then JobSettling else JobLoading)];
      if !isFresh { calls := calls + [ForJob(j)]; }
    }

    method JobEnded(j: nat, o: Outcome)
      requires j < |jobs|
      modifies this`jobs, process
      ensures View() == FinishJob(process.cfg, old(View()), j, o)
    {
      var q := jobs[j].q;
      jobs := jobs[j := jobs[j].(pc := JobSettling)];
      if !o.Throws? { process.Persist(q, Tag(o, q.key), process.cfg.readonlyTtlMs(q.key)); }
    }

    method JobSettled(j: nat)
      requires j < |jobs|
      modifies this`jobs, this`jobInflight
      ensures View() == SetJob(old(View()), j, JobDone).(jobInflight := old(jobInflight) - {old(jobs[j].q.cacheKey)})
    {
      jobInflight := jobInflight - {jobs[j].q.cacheKey};
      jobs := jobs[j := jobs[j].(pc := JobDone)];
    }

    // ---------------------------------------------------------------- what the process does not decide

    /** Writes arrive or are lost, rows, files, entries and hints go, time passes. */
    method Environment(e: Event)
      requires OfEnvironment(e) && !e.JobStarts? && !e.JobChecked? && !e.JobSettles? && Enabled(process.cfg, View(), e)
      modifies this`table, this`snaps, this`reqs, process
      ensures View() == Apply(process.cfg, old(View()), e)
    {
      match e
      case ReadTier(r, fails, pick) =>
        var q, i := reqs[r].q, reqs[r].pc.i;
        var found := if fails then None else ReadSource(process.cfg, View(), q, Walk(process.cfg, q.key)[i].source, pick);
        reqs := reqs[r := reqs[r].(pc := DashboardCache.Pc.Answered(i, found))];
      case TableWritten(i) =>
        var w := process.tableWrites[i];
        var dims := if w.q.cacheKey in table then table[w.q.cacheKey].dims else w.q.key;
        table := table[w.q.cacheKey := TableRow(dims, w.val, process.now, process.now + process.cfg.tableTtlMs(w.q.key))];
        process.tableWrites := Without(process.tableWrites, i);
      case TableWriteLost(i) => process.tableWrites := Without(process.tableWrites, i);
      case SnapWritten(i) =>
        var w := process.snapWrites[i];
        snaps := snaps[w.q.cacheKey := SnapFile(w.val, w.expiresAt, w.origin)];
        process.snapWrites := Without(process.snapWrites, i);
      case SnapWriteLost(i) => process.snapWrites := Without(process.snapWrites, i);
      case RowPurged(t) => table := table - {t};
      case SnapRemoved(t) => snaps := snaps - {t};
      case EntryForgotten(t) => process.mem := process.mem - {t};
      case HintsConsumed => process.hints := LiveHints(process.View());
      case Tick(ms) => process.now := process.now + ms;
    }

    method Step(e: Event)
      requires Enabled(process.cfg, View(), e)
      modifies this, process
      ensures View() == Apply(process.cfg, old(View()), e)
    {
      match e
      case Arrive(info) => Serve(info);
      case Continue(r) => Resume(r);
      case LoaderEnds(r, o) => LoaderEnded(r, o);
      case TaskStarts(t) =>
        process.tasks := process.tasks[t := process.tasks[t].(pc := Running)];
        calls := calls + [ForTask(t)];
      case TaskEnds(t, o) => TaskEnded(t, o);
      case TaskSettles(t) => process.OnTaskSettled(t);
      case JobStarts(k) => RunPrecomputeJob(QueryOf(k));
      case JobChecked(j, isFresh) => JobChecked(j, isFresh);
      case JobEnds(j, o) => JobEnded(j, o);
      case JobSettles(j) => JobSettled(j);
      case _ => Environment(e);
    }
  }

  /** An answered request has a loader's value of its own, or a stand-in, and without a pending refresh one in time. */
  ghost predicate AnsweredWell(ks: iset<Key>, cfg: Config, q: Req) {
    q.pc.Done? && q.pc.resp.Served? ==>
      AnswerOk(ks, cfg, q.q.key, q.pc.resp.val) && AnswerTimed(q.pc.resp.refreshPending, q.pc.resp.fill, q.pc.at)
  }

  /**
   * Drive one server under any order of requests, reads, loaders, jobs, writes and time. At the end, as after every step, no
   * key is being refreshed twice; and if the text tells the keys asked for apart, every answer given is a good one.
   */
  method RunServer(cfg: Config, now: int, steps: nat, ghost ks: KeySet) returns (server: Server, ghost events: seq<Event>)
    ensures server.process.cfg == cfg && Run(cfg, Init(now), events, server.View())
    ensures SingleFlight(server.process.tasks)
    ensures EventsIn(ks, events) ==> forall r :: 0 <= r < |server.reqs| ==> AnsweredWell(ks, cfg, server.reqs[r])
  {
    server := new Server(cfg, now);
    events := [];
    for i := 0 to steps
      invariant fresh(server) && fresh(server.process) && server.process.cfg == cfg
      invariant Run(cfg, Init(now), events, server.View())
    {
      var e: Event := *;
      if Enabled(cfg, server.View(), e) {
        OneMore(cfg, Init(now), events, server.View(), e);
        server.Step(e);
        events := events + [e];
      }
    }
    RefreshesAreSingleFlight(cfg, now, events, server.View());
    if EventsIn(ks, events) {
      RunSound(ks, cfg, Init(now), events, server.View());
      RunTimed(ks, cfg, Init(now), events, server.View());
      forall r | 0 <= r < |server.reqs| ensures AnsweredWell(ks, cfg, server.reqs[r]) {
        assert server.View().reqs[r] == server.reqs[r];
        assert PcOk(ks, cfg, server.reqs[r]) && PcTimed(cfg, server.reqs[r], server.process.now);
      }
    }
  }
}
