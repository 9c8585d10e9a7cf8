/** Read-only mode leaves a hint for whatever it could not serve fresh, in every run. */
module DashboardHints {
  import opened Options
  import opened CacheKey
  import opened DashboardMemory
  import PrecomputeHints
  import opened DashboardCache

  // ---------------------------------------------------------------- one answer

  /** What one answering step does to the hints: a pending answer hints its key, any other leaves them as they were. */
  predicate HintsFollowAnswer(s: State, s': State, r: nat)
    requires r < |s'.reqs|
  {
    var q := s'.reqs[r];
    s'.local.now == s.local.now &&
    if q.pc.Done? && q.pc.resp.Served? && q.pc.resp.refreshPending then
      s'.local.hints == s.local.hints[q.q.cacheKey := s.local.now] && q.pc.at == s.local.now
    else s'.local.hints == s.local.hints
  }

  lemma ProceedHints(cfg: Config, s: State, r: nat, i: nat)
    requires cfg.readonly && r < |s.reqs| && !s.reqs[r].pc.Done?
    ensures HintsFollowAnswer(s, Proceed(cfg, s, r, i), r)
  {
  }

  /** A request answered on arrival: from memory it leaves no hint, as a miss it does. */
  lemma ArrivalHints(cfg: Config, s: State, info: Request, q: Query)
    requires cfg.readonly
    ensures HintsFollowAnswer(s, Begin(cfg, s, info, q), |s.reqs|)
  {
    var r := |s.reqs|;
    var s1 := s.(reqs := s.reqs + [Req(q, info.pipeline, info.bypassParam, Reading(0))]);
    var s2 := s1.(local := AfterGet(s1.local, q.cacheKey));
    if !Bypasses(cfg, info.pipeline, info.bypassParam) {
      var e := LiveEntry(s1.local, q.cacheKey);
      if e.Some? && MemoryCounts(cfg, q.key, e.value) {
        FreshReplyHints(s2, r, MemoryAnswer(cfg, s2.local, q, e.value, r));
      } else {
        ProceedHints(cfg, s2, r, 0);
      }
    }
  }

  lemma FreshReplyHints(s: State, r: nat, a: Answer)
    requires r < |s.reqs| && !a.refreshPending && a.local.hints == s.local.hints && a.local.now == s.local.now
    ensures HintsFollowAnswer(s, Reply(s, r, a), r)
  {
  }

  /**
   * A request answered from a tier: a fresh hit leaves no hint, a stale hit and a miss behind the last tier leave one for its
   * text. In read-only mode the tiers asked for stale content are exactly those that refresh always.
   */
  lemma TierAnswerHints(cfg: Config, s: State, r: nat)
    requires cfg.readonly && HasAnswer(cfg, s, r)
    ensures HintsFollowAnswer(s, Resume(cfg, s, r), r)
    ensures var p, pc := ProbeOf(cfg, s, r), Resume(cfg, s, r).reqs[r].pc;
      ProbeCounts(p, s.reqs[r].pc.found) ==>
        pc.Done? && pc.resp.Served? && pc.resp.val == s.reqs[r].pc.found.value.val && pc.resp.refreshPending == p.refresh.Always?
  {
    var q := s.reqs[r];
    ReadonlyWalksNeverAskNear(cfg, q.q.key, q.pc.i);
    if !ProbeCounts(ProbeOf(cfg, s, r), q.pc.found) { ProceedHints(cfg, s, r, q.pc.i + 1); }
  }

  lemma ReadonlyWalksNeverAskNear(cfg: Config, k: Key, i: nat)
    requires cfg.readonly && i < |Walk(cfg, k)|
    ensures !Walk(cfg, k)[i].refresh.IfNear?
  {
  }

  // ---------------------------------------------------------------- whole runs

  ghost predicate HintsPast(l: Local) { forall k :: k in l.hints ==> l.hints[k] <= l.now }

  /** Time does not go back, and a hint is only renewed, or dropped once it is too old. */
  ghost predicate HintsKept(l: Local, l': Local) {
    && l.now <= l'.now
    && forall k :: k in l.hints && l'.now - l.hints[k] <= PrecomputeHints.HINT_TTL_MS ==>
         k in l'.hints && l'.hints[k] >= l.hints[k]
  }

  predicate Remembered(s: State, q: Req) {
    q.pc.Done? && q.pc.resp.Served? && q.pc.resp.refreshPending ==>
      && q.pc.at <= s.local.now
      && (s.local.now - q.pc.at <= PrecomputeHints.HINT_TTL_MS ==> 
          q.q.cacheKey in s.local.hints && s.local.hints[q.q.cacheKey] >= q.pc.at)
  }

  ghost predicate AllRemembered(s: State) {
    HintsPast(s.local) && forall r :: 0 <= r < |s.reqs| ==> Remembered(s, s.reqs[r])
  }

  lemma KeptIsRemembered(s: State, s': State, q: Req)
    requires Remembered(s, q) && HintsKept(s.local, s'.local)
    ensures Remembered(s', q)
  {
  }

  lemma AnswerIsRemembered(s: State, s': State, r: nat)
    requires AllRemembered(s) && r < |s'.reqs| && HintsFollowAnswer(s, s', r)
    requires |s'.reqs| == |s.reqs| || (|s'.reqs| == |s.reqs| + 1 && r == |s.reqs|)
    requires forall q :: 0 <= q < |s.reqs| && q != r ==> s'.reqs[q] == s.reqs[q]
    ensures AllRemembered(s')
  {
    assert HintsKept(s.local, s'.local);
    forall q | 0 <= q < |s'.reqs| ensures Remembered(s', s'.reqs[q]) {
      if q != r { KeptIsRemembered(s, s', s.reqs[q]); }
    }
  }

  lemma SameReqsRemembered(s: State, s': State)
    requires AllRemembered(s) && s'.reqs == s.reqs && HintsKept(s.local, s'.local) && HintsPast(s'.local)
    ensures AllRemembered(s')
  {
    forall q | 0 <= q < |s'.reqs| ensures Remembered(s', s'.reqs[q]) { KeptIsRemembered(s, s', s.reqs[q]); }
  }

  lemma BeginOthers(cfg: Config, s: State, info: Request, q: Query)
    ensures |Begin(cfg, s, info, q).reqs| == |s.reqs| + 1
    ensures forall i :: 0 <= i < |s.reqs| ==> Begin(cfg, s, info, q).reqs[i] == s.reqs[i]
  {
  }

  lemma ResumeOthers(cfg: Config, s: State, r: nat)
    requires HasAnswer(cfg, s, r)
    ensures |Resume(cfg, s, r).reqs| == |s.reqs|
    ensures forall q :: 0 <= q < |s.reqs| && q != r ==> Resume(cfg, s, r).reqs[q] == s.reqs[q]
  {
  }

  lemma PersistKeepsHints(cfg: Config, l: Local, q: Query, v: Val, ttl: int)
    ensures PersistDashboardCaches(cfg, l, q, v, ttl).hints == l.hints && PersistDashboardCaches(cfg, l, q, v, ttl).now == l.now
  {
  }

  lemma LoadRemembers(cfg: Config, s: State, r: nat, o: Outcome)
    requires AllRemembered(s) && Enabled(cfg, s, LoaderEnds(r, o))
    ensures AllRemembered(FinishLoad(cfg, s, r, o))
  {
    var q := s.reqs[r].q;
    if !o.Throws? { PersistKeepsHints(cfg, s.local, q, Tag(o, q.key), cfg.ttlMs(q.key)); }
    AnswerIsRemembered(s, FinishLoad(cfg, s, r, o), r);
  }

  lemma TaskRemembers(cfg: Config, s: State, e: Event)
    requires AllRemembered(s) && Enabled(cfg, s, e) && (e.TaskEnds? || e.JobEnds?)
    ensures AllRemembered(Apply(cfg, s, e))
  {
    var q := if e.TaskEnds? then s.local.tasks[e.t].q else s.jobs[e.j].q;
    if !e.o.Throws? {
      PersistKeepsHints(cfg, s.local, q, Tag(e.o, q.key), if e.TaskEnds? then cfg.ttlMs(q.key) else cfg.readonlyTtlMs(q.key));
    }
    SameReqsRemembered(s, Apply(cfg, s, e));
  }

  lemma ElsewhereKeeps(cfg: Config, s: State, e: Event)
    requires LeavesRequests(e) && !e.TaskEnds? && !e.JobEnds? && Enabled(cfg, s, e) && HintsPast(s.local)
    ensures HintsKept(s.local, Apply(cfg, s, e).local) && HintsPast(Apply(cfg, s, e).local)
  {
  }

  lemma StepRemembers(cfg: Config, s: State, e: Event)
    requires cfg.readonly && AllRemembered(s) && Enabled(cfg, s, e)
    ensures AllRemembered(Apply(cfg, s, e))
  {
    match e
    case Arrive(info) =>
      ArrivalHints(cfg, s, info, QueryOf(info.key));
      BeginOthers(cfg, s, info, QueryOf(info.key));
      AnswerIsRemembered(s, Begin(cfg, s, info, QueryOf(info.key)), |s.reqs|);
    case Continue(r) =>
      TierAnswerHints(cfg, s, r);
      ResumeOthers(cfg, s, r);
      AnswerIsRemembered(s, Resume(cfg, s, r), r);
    case ReadTier(r, fails, pick) => AnswerIsRemembered(s, ReadStep(cfg, s, r, fails, pick), r);
    case LoaderEnds(r, o) => LoadRemembers(cfg, s, r, o);
    case TaskEnds(_, _) => TaskRemembers(cfg, s, e);
    case JobEnds(_, _) => TaskRemembers(cfg, s, e);
    case _ =>
      RequestsLeft(cfg, s, e);
      ElsewhereKeeps(cfg, s, e);
      SameReqsRemembered(s, Apply(cfg, s, e));
  }

  lemma {:induction false} RunRemembers(cfg: Config, s: State, events: seq<Event>, t: State)
    requires cfg.readonly && AllRemembered(s) && Run(cfg, s, events, t)
    ensures AllRemembered(t)
    decreases |events|
  {
    if events != [] {
      StepRemembers(cfg, s, events[0]);
      RunRemembers(cfg, Apply(cfg, s, events[0]), events[1..], t);
    }
  }

  /**
   * In read-only mode, in every run: the text of a key that was answered with a pending refresh has a hint at least as young as that
   * answer, until the answer is older than the life of a hint.
   */
  lemma PendingKeysStayHinted(cfg: Config, now: int, events: seq<Event>, s: State, r: nat)
    requires cfg.readonly && Run(cfg, Init(now), events, s)
    requires r < |s.reqs| && s.reqs[r].pc.Done? && s.reqs[r].pc.resp.Served? && s.reqs[r].pc.resp.refreshPending
    requires s.local.now - s.reqs[r].pc.at <= PrecomputeHints.HINT_TTL_MS
    ensures s.reqs[r].q.cacheKey in s.local.hints && s.local.hints[s.reqs[r].q.cacheKey] >= s.reqs[r].pc.at
  {
    RunRemembers(cfg, Init(now), events, s);
    assert Remembered(s, s.reqs[r]);
  }
}
