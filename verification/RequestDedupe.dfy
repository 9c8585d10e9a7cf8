/**
 * Short sharing of in-flight requests: a call within `ttlMs` of a running load gets that load's
 * promise; a timer set when the load settles removes the entry, if it is still its own.
 *
 * Time only moves forward, timers may fire late, loads settle whenever they do.
 */
module RequestDedupe {
  import opened Text

  datatype Slot = Slot(promise: nat, at: int)

  datatype Phase = Loading | Settled(fireAt: int) | Fired

  datatype Flight = Flight(key: string, startedAt: int, phase: Phase)

  /** A call that went through the table, and the promise it was given. */
  datatype Served = Served(key: string, at: int, promise: nat)

  datatype State = State(
    now: int,
    inFlight: map<string, Slot>,
    flights: seq<Flight>,     // promise n is flights[n]
    served: seq<Served>)

  datatype Event =
    | Call(rawKey: string)
    | LoaderSettles(promise: nat)
    | TimerFires(promise: nat)
    | Tick(ms: nat)

  function Init(now: int): State { State(now, map[], [], []) }

  predicate Enabled(s: State, e: Event) {
    match e
    case Call(_) => true
    case LoaderSettles(p) => p < |s.flights| && s.flights[p].phase.Loading?
    case TimerFires(p) => p < |s.flights| && s.flights[p].phase.Settled? && s.flights[p].phase.fireAt <= s.now
    case Tick(_) => true
  }

  function Reusable(inFlight: map<string, Slot>, k: string, now: int, ttlMs: nat): bool {
    k in inFlight && now - inFlight[k].at < ttlMs
  }

  function AfterTimer(inFlight: map<string, Slot>, k: string, promise: nat): map<string, Slot> {
    if k in inFlight && inFlight[k].promise == promise then inFlight - {k} else inFlight
  }

  function Apply(s: State, e: Event, ttlMs: nat): State
    requires Enabled(s, e)
  {
    match e
    case Call(rawKey) =>
      var k := Trim(rawKey);
      if k == "" then s   // the loader runs outside the table
      else if Reusable(s.inFlight, k, s.now, ttlMs) then
        s.(served := s.served + [Served(k, s.now, s.inFlight[k].promise)])
      else
        var p := |s.flights|;
        s.(inFlight := s.inFlight[k := Slot(p, s.now)],
           flights := s.flights + [Flight(k, s.now, Loading)],
           served := s.served + [Served(k, s.now, p)])
    case LoaderSettles(p) =>
      s.(flights := s.flights[p := s.flights[p].(phase := Settled(s.now + ttlMs))])
    case TimerFires(p) =>
      s.(flights := s.flights[p := s.flights[p].(phase := Fired)],
         inFlight := AfterTimer(s.inFlight, s.flights[p].key, p))
    case Tick(ms) => s.(now := s.now + ms)
  }

  ghost predicate Run(s: State, events: seq<Event>, t: State, ttlMs: nat)
    decreases |events|
  {
    if events == [] then s == t
    else Enabled(s, events[0]) && Run(Apply(s, events[0], ttlMs), events[1..], t, ttlMs)
  }

  // ---------------------------------------------------------------- what every state keeps

  ghost predicate FlightOk(f: Flight, now: int, ttlMs: nat) {
    && f.startedAt <= now
    && (f.phase.Settled? ==> f.phase.fireAt >= f.startedAt + ttlMs)
    && (f.phase.Fired? ==> now >= f.startedAt + ttlMs)
  }

  ghost predicate FlightsOk(flights: seq<Flight>, now: int, ttlMs: nat) {
    forall p :: 0 <= p < |flights| ==> FlightOk(flights[p], now, ttlMs)
  }

  ghost predicate Newest(flights: seq<Flight>, p: nat)
    requires p < |flights|
  {
    forall q :: p < q < |flights| ==> flights[q].key != flights[p].key
  }

  ghost predicate SlotOk(k: string, slot: Slot, flights: seq<Flight>) {
    && slot.promise < |flights|
    && flights[slot.promise].key == k
    && flights[slot.promise].startedAt == slot.at
    && !flights[slot.promise].phase.Fired?
    && Newest(flights, slot.promise)
  }

  /** The table holds, for each key, its newest flight, until that flight's own timer has fired. */
  ghost predicate TableOk(inFlight: map<string, Slot>, flights: seq<Flight>) {
    && (forall k :: k in inFlight ==> SlotOk(k, inFlight[k], flights))
    && (forall p {:trigger Newest(flights, p)} ::
          0 <= p < |flights| && Newest(flights, p) && flights[p].key !in inFlight ==> flights[p].phase.Fired?)
  }

  ghost predicate Spaced(flights: seq<Flight>, ttlMs: nat) {
    forall p, q :: 0 <= p < q < |flights| && flights[p].key == flights[q].key ==>
      flights[q].startedAt - flights[p].startedAt >= ttlMs
  }

  ghost predicate ServedOne(c: Served, flights: seq<Flight>, now: int, ttlMs: nat) {
    && c.promise < |flights|
    && flights[c.promise].key == c.key
    && 0 <= c.at - flights[c.promise].startedAt < ttlMs
    && c.at <= now
  }

  ghost predicate ServedOk(served: seq<Served>, flights: seq<Flight>, now: int, ttlMs: nat) {
    && (forall i :: 0 <= i < |served| ==> ServedOne(served[i], flights, now, ttlMs))
    && (forall i, j :: 0 <= i <= j < |served| && served[i].key == served[j].key ==>
          served[i].promise <= served[j].promise)
  }

  ghost predicate Inv(s: State, ttlMs: nat) {
    && FlightsOk(s.flights, s.now, ttlMs)
    && TableOk(s.inFlight, s.flights)
    && Spaced(s.flights, ttlMs)
    && ServedOk(s.served, s.flights, s.now, ttlMs)
  }

  /** The newest flight of a key is at or after every other one. */
  lemma NewestIsLast(flights: seq<Flight>, top: nat, p: nat)
    requires top < |flights| && p < |flights| && Newest(flights, top) && flights[p].key == flights[top].key
    ensures p <= top
  {
  }

  lemma NewFlightIsSpaced(s: State, k: string, ttlMs: nat, p: nat)
    requires Inv(s, ttlMs) && p < |s.flights| && s.flights[p].key == k
    requires !Reusable(s.inFlight, k, s.now, ttlMs)
    ensures s.now - s.flights[p].startedAt >= ttlMs
    decreases |s.flights| - p
  {
    if k in s.inFlight {
      var top := s.inFlight[k].promise;
      assert SlotOk(k, s.inFlight[k], s.flights);
      NewestIsLast(s.flights, top, p);
    } else if Newest(s.flights, p) {
      assert FlightOk(s.flights[p], s.now, ttlMs);
    } else {
      var q :| p < q < |s.flights| && s.flights[q].key == k;
      NewFlightIsSpaced(s, k, ttlMs, q);
    }
  }

  lemma SpacedAfterNewFlight(s: State, f: Flight, ttlMs: nat)
    requires Inv(s, ttlMs) && !Reusable(s.inFlight, f.key, s.now, ttlMs) && f.startedAt == s.now
    ensures Spaced(s.flights + [f], ttlMs)
  {
    forall p | 0 <= p < |s.flights| && s.flights[p].key == f.key
      ensures s.now - s.flights[p].startedAt >= ttlMs
    {
      NewFlightIsSpaced(s, f.key, ttlMs, p);
    }
  }

  lemma TableAfterNewFlight(inFlight: map<string, Slot>, flights: seq<Flight>, f: Flight)
    requires TableOk(inFlight, flights) && f.phase.Loading?
    ensures TableOk(inFlight[f.key := Slot(|flights|, f.startedAt)], flights + [f])
  {
    var flights' := flights + [f];
    var table := inFlight[f.key := Slot(|flights|, f.startedAt)];
    forall k | k in table ensures SlotOk(k, table[k], flights') {
      if k != f.key { assert SlotOk(k, inFlight[k], flights); }
    }
    forall p | 0 <= p < |flights'| && Newest(flights', p) && flights'[p].key !in table
      ensures flights'[p].phase.Fired?
    {
      assert flights'[p] == flights[p];
      forall q | p < q < |flights| ensures flights[q].key != flights[p].key { assert flights'[q] == flights[q]; }
      assert Newest(flights, p);
    }
  }

  lemma ServedAfterNewFlight(s: State, f: Flight, ttlMs: nat)
    requires ServedOk(s.served, s.flights, s.now, ttlMs) && f.startedAt == s.now && ttlMs > 0
    ensures ServedOk(s.served + [Served(f.key, s.now, |s.flights|)], s.flights + [f], s.now, ttlMs)
  {
    forall i | 0 <= i < |s.served| ensures ServedOne(s.served[i], s.flights + [f], s.now, ttlMs) {
      assert ServedOne(s.served[i], s.flights, s.now, ttlMs);
    }
  }

  lemma ServedAfterReuse(s: State, k: string, ttlMs: nat)
    requires Inv(s, ttlMs) && Reusable(s.inFlight, k, s.now, ttlMs)
    ensures ServedOk(s.served + [Served(k, s.now, s.inFlight[k].promise)], s.flights, s.now, ttlMs)
  {
    var top := s.inFlight[k].promise;
    assert SlotOk(k, s.inFlight[k], s.flights);
    assert FlightOk(s.flights[top], s.now, ttlMs);
    forall i | 0 <= i < |s.served| && s.served[i].key == k ensures s.served[i].promise <= top {
      assert ServedOne(s.served[i], s.flights, s.now, ttlMs);
      NewestIsLast(s.flights, top, s.served[i].promise);
    }
  }

  lemma NewFlightKeepsInv(s: State, k: string, ttlMs: nat)
    requires Inv(s, ttlMs) && ttlMs > 0 && !Reusable(s.inFlight, k, s.now, ttlMs)
    ensures var p := |s.flights|;
            Inv(State(s.now, s.inFlight[k := Slot(p, s.now)], s.flights + [Flight(k, s.now, Loading)],
                      s.served + [Served(k, s.now, p)]), ttlMs)
  {
    var f := Flight(k, s.now, Loading);
    SpacedAfterNewFlight(s, f, ttlMs);
    TableAfterNewFlight(s.inFlight, s.flights, f);
    ServedAfterNewFlight(s, f, ttlMs);
    assert FlightsOk(s.flights + [f], s.now, ttlMs);
  }

  lemma CallKeepsInv(s: State, rawKey: string, ttlMs: nat)
    requires Inv(s, ttlMs) && ttlMs > 0
    ensures Inv(Apply(s, Call(rawKey), ttlMs), ttlMs)
  {
    var k := Trim(rawKey);
    if k != "" {
      if Reusable(s.inFlight, k, s.now, ttlMs) {
        ServedAfterReuse(s, k, ttlMs);
      } else {
        NewFlightKeepsInv(s, k, ttlMs);
      }
    }
  }

  lemma PhaseChangeKeepsNewest(flights: seq<Flight>, p: nat, ph: Phase, q: nat)
    requires p < |flights| && q < |flights|
    ensures Newest(flights[p := flights[p].(phase := ph)], q) <==> Newest(flights, q)
  {
    var flights' := flights[p := flights[p].(phase := ph)];
    assert forall r :: 0 <= r < |flights| ==> flights'[r].key == flights[r].key;
  }

  lemma TableAfterPhaseChange(inFlight: map<string, Slot>, flights: seq<Flight>, p: nat, ph: Phase)
    requires TableOk(inFlight, flights) && p < |flights| && !flights[p].phase.Fired?
    ensures var table := if ph.Fired? then AfterTimer(inFlight, flights[p].key, p) else inFlight;
            TableOk(table, flights[p := flights[p].(phase := ph)])
  {
    var flights' := flights[p := flights[p].(phase := ph)];
    var table := if ph.Fired? then AfterTimer(inFlight, flights[p].key, p) else inFlight;
    forall k | k in table ensures SlotOk(k, table[k], flights') {
      assert SlotOk(k, inFlight[k], flights);
      PhaseChangeKeepsNewest(flights, p, ph, table[k].promise);
    }
    forall q | 0 <= q < |flights'| && Newest(flights', q) && flights'[q].key !in table
      ensures flights'[q].phase.Fired?
    {
      PhaseChangeKeepsNewest(flights, p, ph, q);
      if flights[q].key in inFlight {
        assert SlotOk(flights[q].key, inFlight[flights[q].key], flights);
        NewestIsLast(flights, p, q);
        NewestIsLast(flights, q, p);
      }
    }
  }

  lemma PhaseChangeKeepsRest(s: State, p: nat, ph: Phase, ttlMs: nat)
    requires Inv(s, ttlMs) && p < |s.flights| && FlightOk(s.flights[p].(phase := ph), s.now, ttlMs)
    ensures var flights' := s.flights[p := s.flights[p].(phase := ph)];
            FlightsOk(flights', s.now, ttlMs) && Spaced(flights', ttlMs) && ServedOk(s.served, flights', s.now, ttlMs)
  {
    var flights' := s.flights[p := s.flights[p].(phase := ph)];
    forall i | 0 <= i < |s.served| ensures ServedOne(s.served[i], flights', s.now, ttlMs) {
      assert ServedOne(s.served[i], s.flights, s.now, ttlMs);
    }
  }

  lemma TickKeepsInv(s: State, ms: nat, ttlMs: nat)
    requires Inv(s, ttlMs)
    ensures Inv(s.(now := s.now + ms), ttlMs)
  {
    forall p | 0 <= p < |s.flights| ensures FlightOk(s.flights[p], s.now + ms, ttlMs) {
      assert FlightOk(s.flights[p], s.now, ttlMs);
    }
    forall i | 0 <= i < |s.served| ensures ServedOne(s.served[i], s.flights, s.now + ms, ttlMs) {
      assert ServedOne(s.served[i], s.flights, s.now, ttlMs);
    }
  }

  lemma SettleKeepsInv(s: State, p: nat, ttlMs: nat)
    requires Inv(s, ttlMs) && Enabled(s, LoaderSettles(p))
    ensures Inv(Apply(s, LoaderSettles(p), ttlMs), ttlMs)
  {
    assert FlightOk(s.flights[p], s.now, ttlMs);
    TableAfterPhaseChange(s.inFlight, s.flights, p, Settled(s.now + ttlMs));
    PhaseChangeKeepsRest(s, p, Settled(s.now + ttlMs), ttlMs);
  }

  lemma TimerKeepsInv(s: State, p: nat, ttlMs: nat)
    requires Inv(s, ttlMs) && Enabled(s, TimerFires(p))
    ensures Inv(Apply(s, TimerFires(p), ttlMs), ttlMs)
  {
    assert FlightOk(s.flights[p], s.now, ttlMs);
    TableAfterPhaseChange(s.inFlight, s.flights, p, Fired);
    PhaseChangeKeepsRest(s, p, Fired, ttlMs);
  }

  lemma StepKeepsInv(s: State, e: Event, ttlMs: nat)
    requires Inv(s, ttlMs) && Enabled(s, e) && ttlMs > 0
    ensures Inv(Apply(s, e, ttlMs), ttlMs)
  {
    match e {
      case Call(rawKey) => CallKeepsInv(s, rawKey, ttlMs);
      case LoaderSettles(p) => SettleKeepsInv(s, p, ttlMs);
      case TimerFires(p) => TimerKeepsInv(s, p, ttlMs);
      case Tick(ms) => TickKeepsInv(s, ms, ttlMs);
    }
  }

  lemma {:induction false} RunKeepsInv(s: State, events: seq<Event>, t: State, ttlMs: nat)
    requires Inv(s, ttlMs) && Run(s, events, t, ttlMs) && ttlMs > 0
    ensures Inv(t, ttlMs)
    decreases |events|
  {
    if events != [] {
      StepKeepsInv(s, events[0], ttlMs);
      RunKeepsInv(Apply(s, events[0], ttlMs), events[1..], t, ttlMs);
    }
  }

  // ---------------------------------------------------------------- theorems over every run

  /** Loads of one key start at least `ttlMs` apart. */
  lemma LoadsAreSpaced(now: int, events: seq<Event>, t: State, ttlMs: nat, p: nat, q: nat)
    requires Run(Init(now), events, t, ttlMs) && ttlMs > 0
    requires p < q < |t.flights| && t.flights[p].key == t.flights[q].key
    ensures t.flights[q].startedAt - t.flights[p].startedAt >= ttlMs
  {
    RunKeepsInv(Init(now), events, t, ttlMs);
  }

  /** Every caller is given a load of its own key that started less than `ttlMs` before the call. */
  lemma CallersGetAFreshLoad(now: int, events: seq<Event>, t: State, ttlMs: nat, i: nat)
    requires Run(Init(now), events, t, ttlMs) && ttlMs > 0 && i < |t.served|
    ensures t.served[i].promise < |t.flights|
    ensures t.flights[t.served[i].promise].key == t.served[i].key
    ensures 0 <= t.served[i].at - t.flights[t.served[i].promise].startedAt < ttlMs
  {
    RunKeepsInv(Init(now), events, t, ttlMs);
    assert ServedOne(t.served[i], t.flights, t.now, ttlMs);
  }

  /** A later call that falls inside the window of an earlier caller's load shares that load. */
  lemma CallsInsideTheWindowShare(now: int, events: seq<Event>, t: State, ttlMs: nat, i: nat, j: nat)
    requires Run(Init(now), events, t, ttlMs) && ttlMs > 0
    requires i <= j < |t.served| && t.served[i].key == t.served[j].key
    requires t.served[i].promise < |t.flights|
    requires t.served[j].at - t.flights[t.served[i].promise].startedAt < ttlMs
    ensures t.served[j].promise == t.served[i].promise
  {
    RunKeepsInv(Init(now), events, t, ttlMs);
    assert ServedOne(t.served[i], t.flights, t.now, ttlMs) && ServedOne(t.served[j], t.flights, t.now, ttlMs);
  }

  lemma NewestIsInTable(inFlight: map<string, Slot>, flights: seq<Flight>, p: nat)
    requires TableOk(inFlight, flights) && p < |flights| && Newest(flights, p)
    ensures !flights[p].phase.Fired? <==> flights[p].key in inFlight
    ensures flights[p].key in inFlight ==> inFlight[flights[p].key] == Slot(p, flights[p].startedAt)
  {
    var k := flights[p].key;
    if k in inFlight {
      assert SlotOk(k, inFlight[k], flights);
      NewestIsLast(flights, inFlight[k].promise, p);
      NewestIsLast(flights, p, inFlight[k].promise);
    }
  }

  /**
   * A timer, however late, never removes a newer load's entry: the newest load of a key stays in the
   * table until its own timer fires.
   */
  lemma NewestLoadStaysUntilItsOwnTimer(now: int, events: seq<Event>, t: State, ttlMs: nat, p: nat)
    requires Run(Init(now), events, t, ttlMs) && ttlMs > 0
    requires p < |t.flights| && Newest(t.flights, p)
    ensures !t.flights[p].phase.Fired? <==> t.flights[p].key in t.inFlight
    ensures t.flights[p].key in t.inFlight ==> t.inFlight[t.flights[p].key] == Slot(p, t.flights[p].startedAt)
  {
    RunKeepsInv(Init(now), events, t, ttlMs);
    NewestIsInTable(t.inFlight, t.flights, p);
  }

  lemma EntryMeansUnfired(inFlight: map<string, Slot>, flights: seq<Flight>) returns (p: nat)
    requires TableOk(inFlight, flights)
    ensures inFlight != map[] ==> p < |flights| && !flights[p].phase.Fired?
  {
    p := 0;
    if k :| k in inFlight {
      assert SlotOk(k, inFlight[k], flights);
      p := inFlight[k].promise;
    }
  }

  /** Once every load has settled and every timer has fired, nothing is left behind. */
  lemma NothingLeftBehind(now: int, events: seq<Event>, t: State, ttlMs: nat)
    requires Run(Init(now), events, t, ttlMs) && ttlMs > 0
    requires forall p :: 0 <= p < |t.flights| ==> t.flights[p].phase.Fired?
    ensures t.inFlight == map[]
  {
    RunKeepsInv(Init(now), events, t, ttlMs);
    var p := EntryMeansUnfired(t.inFlight, t.flights);
  }

  // ---------------------------------------------------------------- every call is answered

  /** The calls of a run that have a key, with the moments they came at. */
  function Asked(events: seq<Event>, now: int): seq<(string, int)> {
    if events == [] then []
    else
      match events[0]
      case Call(raw) => (if Trim(raw) == "" then [] else [(Trim(raw), now)]) + Asked(events[1..], now)
      case Tick(ms) => Asked(events[1..], now + ms)
      case _ => Asked(events[1..], now)
  }

  function Answered(served: seq<Served>): seq<(string, int)> {
    seq(|served|, i requires 0 <= i < |served| => (served[i].key, served[i].at))
  }

  lemma {:induction false} RunAnswers(s: State, events: seq<Event>, t: State, ttlMs: nat)
    requires Run(s, events, t, ttlMs)
    ensures Answered(t.served) == Answered(s.served) + Asked(events, s.now)
    decreases |events|
  {
    if events != [] {
      var s1 := Apply(s, events[0], ttlMs);
      RunAnswers(s1, events[1..], t, ttlMs);
      if events[0].Call? && Trim(events[0].rawKey) != "" {
        assert Answered(s1.served) == Answered(s.served) + [(Trim(events[0].rawKey), s.now)];
      }
    }
  }

  /** In every run each call with a key, and nothing else, is given a promise at once, in the order of the calls. */
  lemma EveryCallIsServed(now: int, events: seq<Event>, t: State, ttlMs: nat)
    requires Run(Init(now), events, t, ttlMs)
    ensures Answered(t.served) == Asked(events, now)
  {
    RunAnswers(Init(now), events, t, ttlMs);
  }

  // ---------------------------------------------------------------- how soon the table can be empty

  predicate NoCalls(events: seq<Event>) { forall i :: 0 <= i < |events| ==> !events[i].Call? }

  /** No timer is set for longer than `ttlMs` from now. */
  ghost predicate TimersSoon(s: State, ttlMs: nat) {
    forall p :: 0 <= p < |s.flights| && s.flights[p].phase.Settled? ==> s.flights[p].phase.fireAt <= s.now + ttlMs
  }

  lemma {:induction false} RunTimersSoon(s: State, events: seq<Event>, t: State, ttlMs: nat)
    requires Run(s, events, t, ttlMs) && TimersSoon(s, ttlMs)
    ensures TimersSoon(t, ttlMs)
    decreases |events|
  {
    if events != [] { RunTimersSoon(Apply(s, events[0], ttlMs), events[1..], t, ttlMs); }
  }

  lemma {:induction false} RunsJoin(s: State, xs: seq<Event>, t: State, ys: seq<Event>, u: State, ttlMs: nat)
    requires Run(s, xs, t, ttlMs) && Run(t, ys, u, ttlMs)
    ensures Run(s, xs + ys, u, ttlMs)
    decreases |xs|
  {
    if xs == [] {
      assert xs + ys == ys;
    } else {
      RunsJoin(Apply(s, xs[0], ttlMs), xs[1..], t, ys, u, ttlMs);
      assert (xs + ys)[1..] == xs[1..] + ys;
    }
  }

  lemma {:induction false} SettleFrom(s: State, i: nat, ttlMs: nat) returns (events: seq<Event>, t: State)
    requires i <= |s.flights| && TimersSoon(s, ttlMs)
    requires forall p :: 0 <= p < i ==> !s.flights[p].phase.Loading?
    ensures Run(s, events, t, ttlMs) && NoCalls(events) && t.now == s.now && TimersSoon(t, ttlMs)
    ensures forall p :: 0 <= p < |t.flights| ==> !t.flights[p].phase.Loading?
    decreases |s.flights| - i
  {
    if i == |s.flights| {
      events, t := [], s;
    } else if s.flights[i].phase.Loading? {
      var rest;
      rest, t := SettleFrom(Apply(s, LoaderSettles(i), ttlMs), i + 1, ttlMs);
      events := [LoaderSettles(i)] + rest;
    } else {
      events, t := SettleFrom(s, i + 1, ttlMs);
    }
  }

  ghost predicate CanFire(f: Flight, now: int) { f.phase.Fired? || (f.phase.Settled? && f.phase.fireAt <= now) }

  lemma {:induction false} FireFrom(s: State, i: nat, ttlMs: nat) returns (events: seq<Event>, t: State)
    requires i <= |s.flights| && forall p :: 0 <= p < |s.flights| ==> CanFire(s.flights[p], s.now)
    requires forall p :: 0 <= p < i ==> s.flights[p].phase.Fired?
    ensures Run(s, events, t, ttlMs) && NoCalls(events) && t.now == s.now
    ensures forall p :: 0 <= p < |t.flights| ==> t.flights[p].phase.Fired?
    decreases |s.flights| - i
  {
    if i == |s.flights| {
      events, t := [], s;
    } else if s.flights[i].phase.Settled? {
      var rest;
      rest, t := FireFrom(Apply(s, TimerFires(i), ttlMs), i + 1, ttlMs);
      events := [TimerFires(i)] + rest;
    } else {
      assert CanFire(s.flights[i], s.now);
      events, t := FireFrom(s, i + 1, ttlMs);
    }
  }

  /** From every reachable state: when the loads that run settle at once and no call comes, the table can be empty `ttlMs` later. */
  lemma TableCanEmpty(now: int, events: seq<Event>, s: State, ttlMs: nat) returns (more: seq<Event>, u: State)
    requires Run(Init(now), events, s, ttlMs) && ttlMs > 0
    ensures Run(s, more, u, ttlMs) && NoCalls(more) && u.now == s.now + ttlMs && u.inFlight == map[]
  {
    RunTimersSoon(Init(now), events, s, ttlMs);
    var settle, t := SettleFrom(s, 0, ttlMs);
    var later := Apply(t, Tick(ttlMs), ttlMs);
    assert Run(t, [Tick(ttlMs)], later, ttlMs) by { assert Run(later, [], later, ttlMs); }
    var fire;
    fire, u := FireFrom(later, 0, ttlMs);
    RunsJoin(t, [Tick(ttlMs)], later, fire, u, ttlMs);
    RunsJoin(s, settle, t, [Tick(ttlMs)] + fire, u, ttlMs);
    more := settle + ([Tick(ttlMs)] + fire);
    RunsJoin(Init(now), events, s, more, u, ttlMs);
    NothingLeftBehind(now, events + more, u, ttlMs);
  }

  // ---------------------------------------------------------------- the table, updated in place

  class InFlightTable {
    var inFlight: map<string, Slot>

    constructor ()
      ensures inFlight == map[]
    {
      inFlight := map[];
    }

    /** `created` is the promise a call makes when it cannot share one. */
    method WithInFlightDedupe(rawKey: string, now: int, created: nat, ttlMs: nat)
      returns (promise: nat, started: bool)
      modifies this
      ensures var k := Trim(rawKey);
              var reuse := k != "" && Reusable(old(inFlight), k, now, ttlMs);
              && started == !reuse
              && promise == (if reuse then old(inFlight)[k].promise else created)
              && inFlight == if k == "" || reuse then old(inFlight) else old(inFlight)[k := Slot(created, now)]
    {
      var k := Trim(rawKey);
      if k == "" { return created, true; }
      if k in inFlight && now - inFlight[k].at < ttlMs { return inFlight[k].promise, false; }
      inFlight := inFlight[k := Slot(created, now)];
      return created, true;
    }

    method OnTimer(k: string, promise: nat)
      modifies this
      ensures inFlight == AfterTimer(old(inFlight), k, promise)
    {
      if k in inFlight && inFlight[k].promise == promise { inFlight := inFlight - {k}; }
    }
  }
}
