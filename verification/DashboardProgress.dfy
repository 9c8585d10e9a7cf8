/**
 * Everything the cache starts comes to an end: requests, background refreshes and precompute jobs. Each has a bounded number of
 * steps, can make its next one whatever the others do, calls its loader at most once, and is never touched again once it has
 * ended.
 */
module DashboardProgress {
  import opened Options
  import opened CacheKey
  import opened DashboardMemory
  import opened DashboardCache

  // ---------------------------------------------------------------- one request, refresh or job

  /** It has been started. */
  predicate There(s: State, c: Caller) {
    match c
    case ForRequest(r) => r < |s.reqs|
    case ForTask(t) => t < |s.local.tasks|
    case ForJob(j) => j < |s.jobs|
  }

  /** The event is a step of its own. */
  predicate OwnStep(e: Event, c: Caller) {
    match c
    case ForRequest(r) => (e.ReadTier? || e.Continue? || e.LoaderEnds?) && e.r == r
    case ForTask(t) => (e.TaskStarts? || e.TaskEnds? || e.TaskSettles?) && e.t == t
    case ForJob(j) => (e.JobChecked? || e.JobEnds? || e.JobSettles?) && e.j == j
  }

  /** A request that reads stands at a tier of its walk. */
  predicate InWalk(cfg: Config, req: Req) {
    (req.pc.Reading? || req.pc.Answered?) ==> req.pc.i < |Walk(cfg, req.q.key)|
  }

  predicate AllInWalk(cfg: Config, s: State) { forall r :: 0 <= r < |s.reqs| ==> InWalk(cfg, s.reqs[r]) }

  /** The most steps a request can take: two a tier and one for its loader. */
  function Longest(cfg: Config, q: Query): nat { 2 * |Walk(cfg, q.key)| + 1 }

  function RequestLeft(cfg: Config, req: Req): nat
    requires InWalk(cfg, req)
  {
    match req.pc
    case Reading(i) => 2 * (|Walk(cfg, req.q.key)| - i) + 1
    case Answered(i, _) => 2 * (|Walk(cfg, req.q.key)| - i)
    case Loading => 1
    case Done(_, _) => 0
  }

  function TaskLeft(pc: TaskPc): nat { match pc case Queued => 3 case Running => 2 case Settling => 1 case Settled => 0 }

  function JobLeft(pc: JobPc): nat { match pc case Checking => 3 case JobLoading => 2 case JobSettling => 1 case JobDone => 0 }

  /** The most steps it can still take. */
  function StepsLeft(cfg: Config, s: State, c: Caller): nat
    requires There(s, c) && AllInWalk(cfg, s)
  {
    match c
    case ForRequest(r) => RequestLeft(cfg, s.reqs[r])
    case ForTask(t) => TaskLeft(s.local.tasks[t].pc)
    case ForJob(j) => JobLeft(s.jobs[j].pc)
  }

  /** Nothing of it has changed. */
  predicate Untouched(s: State, s': State, c: Caller)
    requires There(s, c)
  {
    && There(s', c)
    && match c
       case ForRequest(r) => s'.reqs[r] == s.reqs[r]
       case ForTask(t) => s'.local.tasks[t] == s.local.tasks[t]
       case ForJob(j) => s'.jobs[j] == s.jobs[j]
  }

  function QueryAt(s: State, c: Caller): Query
    requires There(s, c)
  {
    match c case ForRequest(r) => s.reqs[r].q case ForTask(t) => s.local.tasks[t].q case ForJob(j) => s.jobs[j].q
  }

  predicate Ended(s: State, c: Caller)
    requires There(s, c)
  {
    match c
    case ForRequest(r) => s.reqs[r].pc.Done?
    case ForTask(t) => s.local.tasks[t].pc.Settled?
    case ForJob(j) => s.jobs[j].pc.JobDone?
  }

  /** Its loader has been called and has not ended; or has not been called yet. */
  predicate Waits(s: State, c: Caller) {
    && There(s, c)
    && match c
       case ForRequest(r) => s.reqs[r].pc.Loading?
       case ForTask(t) => s.local.tasks[t].pc.Running?
       case ForJob(j) => s.jobs[j].pc.JobLoading?
  }

  predicate Early(s: State, c: Caller) {
    There(s, c) ==>
      match c
      case ForRequest(r) => s.reqs[r].pc.Reading? || s.reqs[r].pc.Answered?
      case ForTask(t) => s.local.tasks[t].pc.Queued?
      case ForJob(j) => s.jobs[j].pc.Checking?
  }

  // ---------------------------------------------------------------- steps of requests

  /** Nothing happens to the refreshes there are; at most one is added, and waits for its turn. */
  predicate AddsATask(l: Local, l': Local) {
    || l'.tasks == l.tasks
    || (|l'.tasks| == |l.tasks| + 1 && l'.tasks[..|l.tasks|] == l.tasks && l'.tasks[|l.tasks|].pc.Queued?)
  }

  /** One request moves, and calls its loader if it comes to wait for it. */
  predicate Moves(cfg: Config, s: State, s': State, r: nat)
    requires r < |s.reqs|
  {
    && |s'.reqs| == |s.reqs| && s'.reqs == s.reqs[r := s'.reqs[r]] && s'.reqs[r].q == s.reqs[r].q && InWalk(cfg, s'.reqs[r])
    && s'.jobs == s.jobs && AddsATask(s.local, s'.local)
    && s'.calls == s.calls + (if s'.reqs[r].pc.Loading? then [ForRequest(r)] else [])
  }

  lemma PendingAddsATask(cfg: Config, l: Local, q: Query, owner: nat)
    ensures AddsATask(l, EmitTrendPending(cfg, l, q, owner).local)
  {
  }

  lemma ProceedMoves(cfg: Config, s: State, r: nat, i: nat)
    requires r < |s.reqs|
    ensures var s' := Proceed(cfg, s, r, i);
      && Moves(cfg, s, s', r)
      && RequestLeft(cfg, s'.reqs[r]) <= if i < |Walk(cfg, s.reqs[r].q.key)| then Longest(cfg, s.reqs[r].q) - 2 * i else 1
  {
    if i >= |Walk(cfg, s.reqs[r].q.key)| {
      PendingAddsATask(cfg, s.local, s.reqs[r].q, r);
      ExhaustedMoves(cfg, s, r);
    }
  }

  lemma ExhaustedMoves(cfg: Config, s: State, r: nat)
    requires r < |s.reqs| && AddsATask(s.local, EmitTrendPending(cfg, s.local, s.reqs[r].q, r).local)
    ensures var s' := Exhausted(cfg, s, r);
      Moves(cfg, s, s', r) && RequestLeft(cfg, s'.reqs[r]) <= 1
  {
    var q := s.reqs[r].q;
    if cfg.readonly {
      ReplyMoves(cfg, s, r, Answer(Hint(s.local, q.cacheKey), MissShape, true, None));
    } else if TrendEndpoint(q.key.endpoint) {
      ReplyMoves(cfg, s, r, EmitTrendPending(cfg, s.local, q, r));
    }
  }

  lemma ReplyMoves(cfg: Config, s: State, r: nat, a: Answer)
    requires r < |s.reqs| && AddsATask(s.local, a.local)
    ensures Moves(cfg, s, Reply(s, r, a), r) && RequestLeft(cfg, Reply(s, r, a).reqs[r]) == 0
  {
  }

  lemma ResumeMoves(cfg: Config, s: State, r: nat)
    requires HasAnswer(cfg, s, r)
    ensures var s' := Resume(cfg, s, r);
      Moves(cfg, s, s', r) && RequestLeft(cfg, s'.reqs[r]) < RequestLeft(cfg, s.reqs[r])
  {
    var q := s.reqs[r];
    if ProbeCounts(ProbeOf(cfg, s, r), q.pc.found) {
    } else {
      ProceedMoves(cfg, s, r, q.pc.i + 1);
    }
  }

  /** A request joins the others. */
  predicate Joins(cfg: Config, s: State, s': State, q: Query) {
    var r := |s.reqs|;
    && |s'.reqs| == r + 1 && s'.reqs[..r] == s.reqs && s'.reqs[r].q == q && InWalk(cfg, s'.reqs[r])
    && RequestLeft(cfg, s'.reqs[r]) <= Longest(cfg, q) && s'.jobs == s.jobs && AddsATask(s.local, s'.local)
    && s'.calls == s.calls + (if s'.reqs[r].pc.Loading? then [ForRequest(r)] else [])
  }

  lemma BeginMoves(cfg: Config, s: State, info: Request, q: Query)
    ensures Joins(cfg, s, Begin(cfg, s, info, q), q)
  {
    var r := |s.reqs|;
    var s1 := s.(reqs := s.reqs + [Req(q, info.pipeline, info.bypassParam, Reading(0))]);
    if Bypasses(cfg, info.pipeline, info.bypassParam) {
    } else {
      var e := LiveEntry(s1.local, q.cacheKey);
      var s2 := s1.(local := AfterGet(s1.local, q.cacheKey));
      if e.Some? && MemoryCounts(cfg, q.key, e.value) {
        AnswerAddsATask(cfg, s2.local, q, e.value, r);
      } else {
        ProceedMoves(cfg, s2, r, 0);
      }
    }
  }

  lemma AnswerAddsATask(cfg: Config, l: Local, q: Query, e: MemEntry, r: nat)
    ensures AddsATask(l, MemoryAnswer(cfg, l, q, e, r).local)
  {
  }

  lemma ReadMoves(cfg: Config, s: State, r: nat, fails: bool, pick: string)
    requires Enabled(cfg, s, ReadTier(r, fails, pick))
    ensures var s' := ReadStep(cfg, s, r, fails, pick);
      Moves(cfg, s, s', r) && RequestLeft(cfg, s'.reqs[r]) < RequestLeft(cfg, s.reqs[r])
  {
  }

  lemma LoadMoves(cfg: Config, s: State, r: nat, o: Outcome)
    requires Enabled(cfg, s, LoaderEnds(r, o))
    ensures var s' := FinishLoad(cfg, s, r, o);
      Moves(cfg, s, s', r) && RequestLeft(cfg, s'.reqs[r]) < RequestLeft(cfg, s.reqs[r])
  {
    if !o.Throws? { PersistKeepsTasks(cfg, s.local, s.reqs[r].q, Tag(o, s.reqs[r].q.key), cfg.ttlMs(s.reqs[r].q.key)); }
  }

  lemma PersistKeepsTasks(cfg: Config, l: Local, q: Query, v: Val, ttl: int)
    ensures PersistDashboardCaches(cfg, l, q, v, ttl).tasks == l.tasks
  {
  }

  // ---------------------------------------------------------------- steps of refreshes and jobs

  /** A refresh or a job moves one stage on. */
  lemma TaskMoves(cfg: Config, s: State, e: Event)
    requires Enabled(cfg, s, e) && (e.TaskStarts? || e.TaskEnds? || e.TaskSettles?)
    ensures var s' := Apply(cfg, s, e);
      && s'.reqs == s.reqs && s'.jobs == s.jobs && |s'.local.tasks| == |s.local.tasks|
      && s'.local.tasks == s.local.tasks[e.t := s'.local.tasks[e.t]] && s'.local.tasks[e.t].q == s.local.tasks[e.t].q
      && TaskLeft(s'.local.tasks[e.t].pc) == TaskLeft(s.local.tasks[e.t].pc) - 1
      && s'.calls == s.calls + (if e.TaskStarts? then [ForTask(e.t)] else [])
  {
  }

  /** Only this job moves. */
  predicate OnlyJob(s: State, s': State, j: nat)
    requires j < |s.jobs|
  {
    && s'.reqs == s.reqs && s'.local.tasks == s.local.tasks && |s'.jobs| == |s.jobs| && s'.jobs == s.jobs[j := s'.jobs[j]]
    && s'.jobs[j].q == s.jobs[j].q && JobLeft(s'.jobs[j].pc) < JobLeft(s.jobs[j].pc)
    && s'.calls == s.calls + (if s'.jobs[j].pc.JobLoading? then [ForJob(j)] else [])
  }

  lemma JobEndMoves(cfg: Config, s: State, j: nat, o: Outcome)
    requires Enabled(cfg, s, JobEnds(j, o))
    ensures OnlyJob(s, FinishJob(cfg, s, j, o), j)
  {
    var q := s.jobs[j].q;
    if !o.Throws? { PersistKeepsTasks(cfg, s.local, q, Tag(o, q.key), cfg.readonlyTtlMs(q.key)); }
  }

  lemma JobMoves(cfg: Config, s: State, e: Event)
    requires Enabled(cfg, s, e) && (e.JobChecked? || e.JobEnds? || e.JobSettles?)
    ensures OnlyJob(s, Apply(cfg, s, e), e.j)
  {
    if e.JobEnds? { JobEndMoves(cfg, s, e.j, e.o); }
  }

  /** An event of the environment, or the start of a job. */
  predicate NobodysStep(e: Event) {
    match e
    case Arrive(_) | ReadTier(_, _, _) | Continue(_) | LoaderEnds(_, _) => false
    case TaskStarts(_) | TaskEnds(_, _) | TaskSettles(_) | JobChecked(_, _) | JobEnds(_, _) | JobSettles(_) => false
    case _ => true
  }

  lemma OthersMoveNone(cfg: Config, s: State, e: Event)
    requires Enabled(cfg, s, e) && NobodysStep(e)
    ensures var s' := Apply(cfg, s, e);
      && s'.reqs == s.reqs && s'.local.tasks == s.local.tasks && s'.calls == s.calls
      && |s.jobs| <= |s'.jobs| && s'.jobs[..|s.jobs|] == s.jobs
      && forall j :: |s.jobs| <= j < |s'.jobs| ==> s'.jobs[j].pc.Checking?
  {
  }

  // ---------------------------------------------------------------- every step

  /** A step of its own brings it nearer to its end; any other leaves it alone. */
  predicate Advances(cfg: Config, s: State, e: Event, s': State, c: Caller)
    requires There(s, c) && AllInWalk(cfg, s) && AllInWalk(cfg, s')
  {
    if OwnStep(e, c) then
      There(s', c) && QueryAt(s', c) == QueryAt(s, c) && StepsLeft(cfg, s', c) < StepsLeft(cfg, s, c)
    else Untouched(s, s', c)
  }

  lemma MovesAdvance(cfg: Config, s: State, e: Event, s': State, r: nat, c: Caller)
    requires AllInWalk(cfg, s) && r < |s.reqs| && Moves(cfg, s, s', r)
    requires RequestLeft(cfg, s'.reqs[r]) < RequestLeft(cfg, s.reqs[r]) && OwnStep(e, ForRequest(r))
    ensures AllInWalk(cfg, s')
    ensures There(s, c) ==> Advances(cfg, s, e, s', c)
  {
    if There(s, c) && c.ForTask? { assert s.local.tasks[c.t] == s.local.tasks[..|s.local.tasks|][c.t]; }
  }

  lemma RequestSteps(cfg: Config, s: State, e: Event)
    requires Enabled(cfg, s, e) && (e.ReadTier? || e.Continue? || e.LoaderEnds?)
    ensures InWalk(cfg, s.reqs[e.r]) && Moves(cfg, s, Apply(cfg, s, e), e.r)
    ensures RequestLeft(cfg, Apply(cfg, s, e).reqs[e.r]) < RequestLeft(cfg, s.reqs[e.r])
  {
    match e
    case ReadTier(r, fails, pick) => ReadMoves(cfg, s, r, fails, pick);
    case Continue(r) => ResumeMoves(cfg, s, r);
    case LoaderEnds(r, o) => LoadMoves(cfg, s, r, o);
  }

  lemma RequestAdvances(cfg: Config, s: State, e: Event, c: Caller)
    requires Enabled(cfg, s, e) && AllInWalk(cfg, s) && (e.ReadTier? || e.Continue? || e.LoaderEnds?)
    ensures AllInWalk(cfg, Apply(cfg, s, e))
    ensures There(s, c) ==> Advances(cfg, s, e, Apply(cfg, s, e), c)
  {
    RequestSteps(cfg, s, e);
    MovesAdvance(cfg, s, e, Apply(cfg, s, e), e.r, c);
  }

  lemma JoiningLeavesOthers(cfg: Config, s: State, s': State, q: Query, c: Caller)
    requires Joins(cfg, s, s', q) && There(s, c)
    ensures Untouched(s, s', c)
  {
    match c
    case ForRequest(r) => assert s'.reqs[..|s.reqs|][r] == s.reqs[r];
    case ForTask(t) => assert s.local.tasks[t] == s.local.tasks[..|s.local.tasks|][t];
    case ForJob(_) =>
  }

  lemma JoiningKeepsWalks(cfg: Config, s: State, s': State, q: Query)
    requires Joins(cfg, s, s', q) && AllInWalk(cfg, s)
    ensures AllInWalk(cfg, s')
  {
    forall r | 0 <= r < |s'.reqs| ensures InWalk(cfg, s'.reqs[r]) {
      if r < |s.reqs| { assert s'.reqs[..|s.reqs|][r] == s.reqs[r]; }
    }
  }

  lemma ArrivalAdvances(cfg: Config, s: State, info: Request, c: Caller)
    requires AllInWalk(cfg, s)
    ensures AllInWalk(cfg, Apply(cfg, s, Arrive(info)))
    ensures There(s, c) ==> Advances(cfg, s, Arrive(info), Apply(cfg, s, Arrive(info)), c)
  {
    BeginMoves(cfg, s, info, QueryOf(info.key));
    JoiningKeepsWalks(cfg, s, Apply(cfg, s, Arrive(info)), QueryOf(info.key));
    if There(s, c) { JoiningLeavesOthers(cfg, s, Apply(cfg, s, Arrive(info)), QueryOf(info.key), c); }
  }

  lemma TaskAdvances(cfg: Config, s: State, e: Event, c: Caller)
    requires Enabled(cfg, s, e) && AllInWalk(cfg, s) && (e.TaskStarts? || e.TaskEnds? || e.TaskSettles?)
    ensures AllInWalk(cfg, Apply(cfg, s, e))
    ensures There(s, c) ==> Advances(cfg, s, e, Apply(cfg, s, e), c)
  {
    TaskMoves(cfg, s, e);
  }

  lemma JobAdvances(cfg: Config, s: State, e: Event, c: Caller)
    requires Enabled(cfg, s, e) && AllInWalk(cfg, s) && (e.JobChecked? || e.JobEnds? || e.JobSettles?)
    ensures AllInWalk(cfg, Apply(cfg, s, e))
    ensures There(s, c) ==> Advances(cfg, s, e, Apply(cfg, s, e), c)
  {
    JobMoves(cfg, s, e);
  }

  lemma OthersAdvance(cfg: Config, s: State, e: Event, c: Caller)
    requires Enabled(cfg, s, e) && AllInWalk(cfg, s) && NobodysStep(e)
    ensures AllInWalk(cfg, Apply(cfg, s, e))
    ensures There(s, c) ==> Advances(cfg, s, e, Apply(cfg, s, e), c)
  {
    OthersMoveNone(cfg, s, e);
    if There(s, c) && c.ForJob? { assert s.jobs[c.j] == Apply(cfg, s, e).jobs[..|s.jobs|][c.j]; }
  }

  lemma StepAdvances(cfg: Config, s: State, e: Event, c: Caller)
    requires Enabled(cfg, s, e) && AllInWalk(cfg, s)
    ensures AllInWalk(cfg, Apply(cfg, s, e))
    ensures There(s, c) ==> Advances(cfg, s, e, Apply(cfg, s, e), c)
  {
    match e
    case Arrive(info) => ArrivalAdvances(cfg, s, info, c);
    case ReadTier(_, _, _) | Continue(_) | LoaderEnds(_, _) => RequestAdvances(cfg, s, e, c);
    case TaskStarts(_) | TaskEnds(_, _) | TaskSettles(_) => TaskAdvances(cfg, s, e, c);
    case JobChecked(_, _) | JobEnds(_, _) | JobSettles(_) => JobAdvances(cfg, s, e, c);
    case _ => OthersAdvance(cfg, s, e, c);
  }

  // ---------------------------------------------------------------- what starts

  /** The most steps it has from its start. */
  function Cap(cfg: Config, c: Caller, q: Query): nat { if c.ForRequest? then Longest(cfg, q) else 3 }

  predicate StartsFresh(cfg: Config, s': State, c: Caller) {
    There(s', c) && AllInWalk(cfg, s') ==> StepsLeft(cfg, s', c) <= Cap(cfg, c, QueryAt(s', c))
  }

  lemma MovesStart(cfg: Config, s: State, s': State, r: nat, c: Caller)
    requires r < |s.reqs| && Moves(cfg, s, s', r) && !There(s, c)
    ensures StartsFresh(cfg, s', c)
  {
  }

  lemma RequestStarts(cfg: Config, s: State, e: Event, c: Caller)
    requires Enabled(cfg, s, e) && !There(s, c) && (e.ReadTier? || e.Continue? || e.LoaderEnds?)
    ensures StartsFresh(cfg, Apply(cfg, s, e), c)
  {
    RequestSteps(cfg, s, e);
    MovesStart(cfg, s, Apply(cfg, s, e), e.r, c);
  }

  lemma ArrivalStarts(cfg: Config, s: State, info: Request, c: Caller)
    requires !There(s, c)
    ensures StartsFresh(cfg, Apply(cfg, s, Arrive(info)), c)
  {
    BeginMoves(cfg, s, info, QueryOf(info.key));
    JoiningStarts(cfg, s, Apply(cfg, s, Arrive(info)), QueryOf(info.key), c);
  }

  lemma JoiningStarts(cfg: Config, s: State, s': State, q: Query, c: Caller)
    requires Joins(cfg, s, s', q) && !There(s, c)
    ensures StartsFresh(cfg, s', c)
  {
  }

  lemma TaskStartsNone(cfg: Config, s: State, e: Event, c: Caller)
    requires Enabled(cfg, s, e) && !There(s, c) && (e.TaskStarts? || e.TaskEnds? || e.TaskSettles?)
    ensures !There(Apply(cfg, s, e), c)
  {
    TaskMoves(cfg, s, e);
  }

  lemma JobStartsNone(cfg: Config, s: State, e: Event, c: Caller)
    requires Enabled(cfg, s, e) && !There(s, c) && (e.JobChecked? || e.JobEnds? || e.JobSettles?)
    ensures !There(Apply(cfg, s, e), c)
  {
    JobMoves(cfg, s, e);
  }

  lemma OthersStart(cfg: Config, s: State, e: Event, c: Caller)
    requires Enabled(cfg, s, e) && !There(s, c) && NobodysStep(e)
    ensures StartsFresh(cfg, Apply(cfg, s, e), c)
  {
    OthersMoveNone(cfg, s, e);
  }

  lemma NotItsStep(cfg: Config, s: State, e: Event, c: Caller)
    requires Enabled(cfg, s, e) && !There(s, c)
    ensures !OwnStep(e, c)
  {
  }

  lemma StepStarts(cfg: Config, s: State, e: Event, c: Caller)
    requires Enabled(cfg, s, e) && !There(s, c)
    ensures StartsFresh(cfg, Apply(cfg, s, e), c)
  {
    match e
    case Arrive(info) => ArrivalStarts(cfg, s, info, c);
    case ReadTier(_, _, _) | Continue(_) | LoaderEnds(_, _) => RequestStarts(cfg, s, e, c);
    case TaskStarts(_) | TaskEnds(_, _) | TaskSettles(_) => TaskStartsNone(cfg, s, e, c);
    case JobChecked(_, _) | JobEnds(_, _) | JobSettles(_) => JobStartsNone(cfg, s, e, c);
    case _ => OthersStart(cfg, s, e, c);
  }

  // ---------------------------------------------------------------- whole runs

  function OwnSteps(events: seq<Event>, c: Caller): nat {
    if events == [] then 0 else (if OwnStep(events[0], c) then 1 else 0) + OwnSteps(events[1..], c)
  }

  /** What a run does to what was there at its start. */
  predicate RunsOn(cfg: Config, s: State, steps: nat, t: State, c: Caller)
    requires There(s, c) && AllInWalk(cfg, s) && AllInWalk(cfg, t)
  {
    && There(t, c) && QueryAt(t, c) == QueryAt(s, c) && steps + StepsLeft(cfg, t, c) <= StepsLeft(cfg, s, c)
    && (StepsLeft(cfg, s, c) == 0 ==> Untouched(s, t, c))
  }

  lemma {:induction false} RunAdvances(cfg: Config, s: State, events: seq<Event>, t: State, c: Caller)
    requires Run(cfg, s, events, t) && AllInWalk(cfg, s)
    ensures AllInWalk(cfg, t)
    ensures There(s, c) ==> RunsOn(cfg, s, OwnSteps(events, c), t, c)
    ensures !There(s, c) && There(t, c) ==> OwnSteps(events, c) + StepsLeft(cfg, t, c) <= Cap(cfg, c, QueryAt(t, c))
    decreases |events|
  {
    if events != [] {
      var s1 := Apply(cfg, s, events[0]);
      StepAdvances(cfg, s, events[0], c);
      RunAdvances(cfg, s1, events[1..], t, c);
      if !There(s, c) {
        NotItsStep(cfg, s, events[0], c);
        StepStarts(cfg, s, events[0], c);
      }
    }
  }

  /** The next step is there to be made, whatever the others do. */
  lemma CanStep(cfg: Config, s: State, c: Caller)
    requires There(s, c) && AllInWalk(cfg, s)
    ensures Ended(s, c) <==> StepsLeft(cfg, s, c) == 0
    ensures !Ended(s, c) ==> exists e :: OwnStep(e, c) && Enabled(cfg, s, e)
  {
    if !Ended(s, c) {
      var e := match c
        case ForRequest(r) =>
          (match s.reqs[r].pc
           case Reading(_) => ReadTier(r, true, "")
           case Answered(_, _) => Continue(r)
           case _ => LoaderEnds(r, Throws))
        case ForTask(t) =>
          (match s.local.tasks[t].pc
           case Queued => TaskStarts(t)
           case Running => TaskEnds(t, Throws)
           case _ => TaskSettles(t))
        case ForJob(j) =>
          (match s.jobs[j].pc
           case Checking => JobChecked(j, true)
           case JobLoading => JobEnds(j, Throws)
           case _ => JobSettles(j));
      assert OwnStep(e, c) && Enabled(cfg, s, e);
    }
  }

  /**
   * In every run: a request takes at most two steps a tier and one for its loader, a refresh or a job at most three, and until it
   * has ended it can make the next one.
   */
  lemma EverythingEnds(cfg: Config, now: int, events: seq<Event>, s: State, c: Caller)
    requires Run(cfg, Init(now), events, s) && There(s, c)
    ensures OwnSteps(events, c) <= Cap(cfg, c, QueryAt(s, c))
    ensures !Ended(s, c) ==>
      OwnSteps(events, c) < Cap(cfg, c, QueryAt(s, c)) && exists e :: OwnStep(e, c) && Enabled(cfg, s, e)
  {
    RunAdvances(cfg, Init(now), events, s, c);
    CanStep(cfg, s, c);
  }

  /** What has ended stays as it is: no answer is ever given twice, no refresh or job settled twice. */
  lemma EndedStaysEnded(cfg: Config, now: int, before: seq<Event>, s: State, events: seq<Event>, t: State, c: Caller)
    requires Run(cfg, Init(now), before, s) && There(s, c) && Ended(s, c) && Run(cfg, s, events, t)
    ensures Untouched(s, t, c) && OwnSteps(events, c) == 0
  {
    RunAdvances(cfg, Init(now), before, s, c);
    CanStep(cfg, s, c);
    RunAdvances(cfg, s, events, t, c);
  }

  // ---------------------------------------------------------------- loader calls

  /** How often its loader has been called. */
  function Calls(s: State, c: Caller): nat { multiset(s.calls)[c] }

  /** Not called before it waits, once while it waits, at most once after. */
  predicate CallsOk(s: State, c: Caller) {
    Calls(s, c) <= 1 && (Early(s, c) ==> Calls(s, c) == 0) && (Waits(s, c) ==> Calls(s, c) == 1)
  }

  lemma RequestCalls(cfg: Config, s: State, s': State, r: nat, c: Caller)
    requires r < |s.reqs| && Moves(cfg, s, s', r) && CallsOk(s, c)
    requires Early(s, ForRequest(r)) || s'.reqs[r].pc.Done?
    ensures CallsOk(s', c)
  {
    if There(s, c) && c.ForTask? { assert s.local.tasks[c.t] == s.local.tasks[..|s.local.tasks|][c.t]; }
    if s'.reqs[r].pc.Loading? && c != ForRequest(r) { assert Calls(s', c) == Calls(s, c); }
  }

  lemma JoiningCalls(cfg: Config, s: State, s': State, q: Query, c: Caller)
    requires Joins(cfg, s, s', q) && CallsOk(s, c)
    ensures CallsOk(s', c)
  {
    if There(s, c) { JoiningLeavesOthers(cfg, s, s', q, c); }
    var r := |s.reqs|;
    assert s'.reqs[r].pc.Loading? ==> Calls(s', c) == Calls(s, c) + if c == ForRequest(r) then 1 else 0;
  }

  lemma ArrivalCalls(cfg: Config, s: State, info: Request, c: Caller)
    requires CallsOk(s, c)
    ensures CallsOk(Apply(cfg, s, Arrive(info)), c)
  {
    BeginMoves(cfg, s, info, QueryOf(info.key));
    JoiningCalls(cfg, s, Apply(cfg, s, Arrive(info)), QueryOf(info.key), c);
  }

  lemma OwnRequestCalls(cfg: Config, s: State, e: Event, c: Caller)
    requires Enabled(cfg, s, e) && (e.ReadTier? || e.Continue? || e.LoaderEnds?) && CallsOk(s, c)
    ensures CallsOk(Apply(cfg, s, e), c)
  {
    RequestSteps(cfg, s, e);
    RequestCalls(cfg, s, Apply(cfg, s, e), e.r, c);
  }

  lemma TaskCalls(cfg: Config, s: State, e: Event, c: Caller)
    requires Enabled(cfg, s, e) && (e.TaskStarts? || e.TaskEnds? || e.TaskSettles?) && CallsOk(s, c)
    ensures CallsOk(Apply(cfg, s, e), c)
  {
    TaskMoves(cfg, s, e);
    assert e.TaskStarts? ==> Calls(Apply(cfg, s, e), c) == Calls(s, c) + if c == ForTask(e.t) then 1 else 0;
  }

  lemma JobCalls(cfg: Config, s: State, e: Event, c: Caller)
    requires Enabled(cfg, s, e) && (e.JobChecked? || e.JobEnds? || e.JobSettles?) && CallsOk(s, c)
    ensures CallsOk(Apply(cfg, s, e), c)
  {
    var s' := Apply(cfg, s, e);
    JobMoves(cfg, s, e);
    assert s'.jobs[e.j].pc.JobLoading? ==> Calls(s', c) == Calls(s, c) + if c == ForJob(e.j) then 1 else 0;
  }

  lemma OthersCallNone(cfg: Config, s: State, e: Event, c: Caller)
    requires Enabled(cfg, s, e) && NobodysStep(e) && CallsOk(s, c)
    ensures CallsOk(Apply(cfg, s, e), c)
  {
    OthersMoveNone(cfg, s, e);
    if There(s, c) && c.ForJob? { assert s.jobs[c.j] == Apply(cfg, s, e).jobs[..|s.jobs|][c.j]; }
  }

  lemma StepCalls(cfg: Config, s: State, e: Event, c: Caller)
    requires Enabled(cfg, s, e) && CallsOk(s, c)
    ensures CallsOk(Apply(cfg, s, e), c)
  {
    match e
    case Arrive(info) => ArrivalCalls(cfg, s, info, c);
    case ReadTier(_, _, _) | Continue(_) | LoaderEnds(_, _) => OwnRequestCalls(cfg, s, e, c);
    case TaskStarts(_) | TaskEnds(_, _) | TaskSettles(_) => TaskCalls(cfg, s, e, c);
    case JobChecked(_, _) | JobEnds(_, _) | JobSettles(_) => JobCalls(cfg, s, e, c);
    case _ => OthersCallNone(cfg, s, e, c);
  }

  lemma {:induction false} RunCalls(cfg: Config, s: State, events: seq<Event>, t: State, c: Caller)
    requires Run(cfg, s, events, t) && CallsOk(s, c)
    ensures CallsOk(t, c)
    decreases |events|
  {
    if events != [] {
      StepCalls(cfg, s, events[0], c);
      RunCalls(cfg, Apply(cfg, s, events[0]), events[1..], t, c);
    }
  }

  /** In every run: no request, refresh or job calls its loader twice, and each that waits for one has called it. */
  lemma LoadersAreCalledOnce(cfg: Config, now: int, events: seq<Event>, s: State, c: Caller)
    requires Run(cfg, Init(now), events, s)
    ensures multiset(s.calls)[c] <= 1
    ensures Waits(s, c) ==> multiset(s.calls)[c] == 1
    ensures Early(s, c) ==> multiset(s.calls)[c] == 0
  {
    RunCalls(cfg, Init(now), events, s, c);
  }
}
