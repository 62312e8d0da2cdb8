/** The guard's turn with one station (tools/legacy_playout_guard.py, `supervise_station`): loop
    starts, runtime ticks and the emergency fallback, each rate limited, the last two after a grace
    period. One object lives from a station's first turn to the next worker-stall restart, which
    drops all station states; the history goes on behind it. */
module StationWatch {
  import opened Wrappers

  const RUNTIME_BAD_GRACE := 6.0
  const FALLBACK_GRACE := 20.0

  datatype Action = LoopStart | Tick | Fallback

  function Interval(a: Action): real {
    match a case LoopStart => 10.0 case Tick => 5.0 case Fallback => 30.0
  }

  /** A request sent to the backend, a verdict on the runtime, a turn with restarts disabled, or the
      loss of the station's state in a worker-stall restart. */
  datatype Event = Did(at: real, action: Action) | Judged(at: real, healthy: bool) | Disarmed | Forgotten(at: real)

  type History = seq<Event>

  datatype Runtime = Runtime(running: bool, wellFormed: bool, required: map<string, bool>, branches: map<string, bool>)

  /** `required_outputs_healthy`. */
  predicate OutputsHealthy(r: Runtime) {
    && r.running
    && (r.wellFormed ==> forall name :: name in r.required && r.required[name] ==> name in r.branches && r.branches[name])
  }

  datatype Loop = Loop(running: bool, stalled: bool)

  /** Everything one turn may meet. A missing answer is a request that raised; the four times are
      the clock readings in the order they are taken. */
  datatype Look = Look(autostart: bool, status: Option<Loop>, startAt: real, started: Option<Loop>,
                       runtime: Option<Runtime>, now: real, tickAt: real, ticks: bool, fallbackAt: real)
  {
    predicate Clocked() { 0.0 < startAt <= now <= tickAt <= fallbackAt }
  }

  /** What one turn comes to. */
  datatype Turn = Quiet | Failed | RestartRequired

  // ---- The turn, read off the history -------------------------------------------------------

  function Init(h: History): History
    requires h != []
  {
    h[..|h| - 1]
  }

  function Last(h: History): Event
    requires h != []
  {
    h[|h| - 1]
  }

  function LastDid(h: History, a: Action): real {
    if h == [] || Last(h).Forgotten? then 0.0
    else if Last(h).Did? && Last(h).action == a then Last(h).at
    else LastDid(Init(h), a)
  }

  predicate Resets(e: Event) {
    e.Disarmed? || e.Forgotten? || (e.Judged? && e.healthy)
  }

  function BadSince(h: History): Option<real> {
    if h == [] || Resets(Last(h)) then None
    else
      var earlier := BadSince(Init(h));
      if earlier.None? && Last(h).Judged? then Some(Last(h).at) else earlier
  }

  predicate Due(h: History, a: Action, at: real) {
    at - LastDid(h, a) >= Interval(a)
  }

  /** The loop as the rest of the turn sees it, and the history after a start was tried. */
  function AfterLoop(h: History, l: Look): (History, Option<Loop>)
    requires l.status.Some?
  {
    if l.status.value.running || !Due(h, LoopStart, l.startAt) then (h, l.status)
    else (h + [Did(l.startAt, LoopStart)], l.started)
  }

  function BadFor(h: History, now: real): real {
    match BadSince(h) case None => 0.0 case Some(t) => now - if t == 0.0 then now else t
  }

  function AfterBad(h: History, l: Look, loopRunning: bool, runtimeRunning: bool): History {
    var judged := h + [Judged(l.now, false)];
    var badFor := BadFor(judged, l.now);
    var ticks := badFor >= RUNTIME_BAD_GRACE && !loopRunning && Due(judged, Tick, l.tickAt);
    var ticked := if ticks then judged + [Did(l.tickAt, Tick)] else judged;
    if (ticks && !l.ticks) || badFor < FALLBACK_GRACE || loopRunning || runtimeRunning
       || !Due(ticked, Fallback, l.fallbackAt)
    then ticked else ticked + [Did(l.fallbackAt, Fallback)]
  }

  function AfterTurn(h: History, l: Look): History {
    if !l.autostart then h + [Disarmed]
    else if l.status.None? then h
    else
      var (h', loop) := AfterLoop(h, l);
      if loop.None? || loop.value.stalled || l.runtime.None? then h'
      else if OutputsHealthy(l.runtime.value) then h' + [Judged(l.now, true)]
      else AfterBad(h', l, loop.value.running, l.runtime.value.running)
  }

  /** The turn asks for a worker-stall restart. */
  predicate Stalls(h: History, l: Look) {
    l.autostart && l.status.Some? && AfterLoop(h, l).1.Some? && AfterLoop(h, l).1.value.stalled
  }

  function Run(looks: seq<Look>): History {
    if looks == [] then [] else AfterTurn(Run(looks[..|looks| - 1]), looks[|looks| - 1])
  }

  predicate Clocked(looks: seq<Look>) {
    && (forall i :: 0 <= i < |looks| ==> looks[i].Clocked())
    && (forall i, j :: 0 <= i < j < |looks| ==> looks[i].fallbackAt <= looks[j].startAt)
  }

  // ---- Rate limits and grace ----------------------------------------------------------------

  /** The event is no later than `now`. */
  predicate By(e: Event, now: real) {
    e.Disarmed? || 0.0 < e.at <= now
  }

  /** The station's state was not lost between positions j and i. */
  predicate Remembered(h: History, j: int, i: int)
    requires 0 <= j <= i <= |h|
  {
    forall m :: j < m < i ==> !h[m].Forgotten?
  }

  /** The distance two requests of a kind keep. */
  ghost predicate Apart(a: Action, gap: real) {
    match a case LoopStart => gap >= 10.0 case Tick => gap >= 5.0 case Fallback => gap >= 30.0
  }

  /** The request at i keeps its distance from every earlier one of its kind it can remember. */
  ghost predicate Spaced(h: History, i: nat)
    requires i < |h| && h[i].Did?
  {
    forall j :: 0 <= j < i && h[j].Did? && h[j].action == h[i].action && Remembered(h, j, i) ==>
      Apart(h[i].action, h[i].at - h[j].at)
  }

  /** The runtime was judged bad at least `grace` before i, and never since good or disarmed. */
  predicate BadFrom(h: History, i: nat, grace: real)
    requires i < |h| && h[i].Did?
  {
    exists k :: 0 <= k < i && h[k].Judged? && !h[k].healthy && h[i].at - h[k].at >= grace && Unbroken(h, k, i)
  }

  predicate Unbroken(h: History, k: int, i: int)
    requires 0 <= k <= i <= |h|
  {
    forall m :: k <= m < i ==> !h[m].Disarmed? && !h[m].Forgotten? && !(h[m].Judged? && h[m].healthy)
  }

  ghost predicate Fair(h: History, i: nat)
    requires i < |h| && h[i].Did?
  {
    && Spaced(h, i)
    && (h[i].action == Tick ==> BadFrom(h, i, 6.0))
    && (h[i].action == Fallback ==> BadFrom(h, i, 20.0))
  }

  ghost predicate AllFair(h: History) {
    forall i :: 0 <= i < |h| && h[i].Did? ==> Fair(h, i)
  }

  /** The history is no later than `now` and in the order of its times. */
  predicate AllBy(h: History, now: real) {
    && (forall i :: 0 <= i < |h| ==> By(h[i], now))
    && (forall i, j :: 0 <= i < j < |h| && !h[i].Disarmed? && !h[j].Disarmed? ==> h[i].at <= h[j].at)
  }

  lemma {:induction false} LastDidBounds(h: History, a: Action, j: nat)
    requires j < |h| && h[j].Did? && h[j].action == a && AllFair(h) && Remembered(h, j, |h|)
    ensures h[j].at <= LastDid(h, a)
  {
    if j < |h| - 1 {
      if Last(h).Did? && Last(h).action == a {
        assert Fair(h, |h| - 1) && Spaced(h, |h| - 1) && Remembered(h, j, |h| - 1);
      } else {
        FairPrefix(h);
        assert Init(h)[j] == h[j] && Remembered(Init(h), j, |h| - 1);
        LastDidBounds(Init(h), a, j);
      }
    }
  }

  lemma FairPrefix(h: History)
    requires h != [] && AllFair(h)
    ensures AllFair(Init(h))
  {
    forall i | 0 <= i < |h| - 1 && h[i].Did? ensures Fair(Init(h), i) {
      assert h[..i + 1] == Init(h)[..i + 1];
      SameVerdict(h, Init(h), i);
    }
  }

  /** The verdict on position i depends on the events up to i alone. */
  lemma SameVerdict(h: History, g: History, i: nat)
    requires i < |h| && i < |g| && h[..i + 1] == g[..i + 1] && h[i].Did? && Fair(h, i)
    ensures g[i].Did? && Fair(g, i)
  {
    forall m | 0 <= m <= i ensures h[m] == g[m] {
      assert h[..i + 1][m] == g[..i + 1][m];
    }
    SameDistance(h, g, i);
    forall grace | BadFrom(h, i, grace) ensures BadFrom(g, i, grace) {
      SameGrace(h, g, i, grace);
    }
  }

  lemma SameDistance(h: History, g: History, i: nat)
    requires i < |h| && i < |g| && h[i].Did? && Spaced(h, i) && forall m :: 0 <= m <= i ==> h[m] == g[m]
    ensures Spaced(g, i)
  {
    forall j | 0 <= j < i && g[j].Did? && g[j].action == g[i].action && Remembered(g, j, i)
      ensures Apart(g[i].action, g[i].at - g[j].at)
    {
      assert h[j].Did? && Remembered(h, j, i);
    }
  }

  lemma SameGrace(h: History, g: History, i: nat, grace: real)
    requires i < |h| && i < |g| && h[i].Did? && BadFrom(h, i, grace) && forall m :: 0 <= m <= i ==> h[m] == g[m]
    ensures BadFrom(g, i, grace)
  {
    var k :| 0 <= k < i && h[k].Judged? && !h[k].healthy && h[i].at - h[k].at >= grace && Unbroken(h, k, i);
    assert g[k].Judged? && Unbroken(g, k, i);
  }

  lemma {:induction false} BadSinceWitness(h: History)
    requires BadSince(h).Some?
    ensures exists k :: 0 <= k < |h| && h[k].Judged? && !h[k].healthy && h[k].at == BadSince(h).value && Unbroken(h, k, |h|)
  {
    if BadSince(Init(h)).Some? {
      BadSinceWitness(Init(h));
      var g := Init(h);
      var k :| 0 <= k < |g| && g[k].Judged? && !g[k].healthy && g[k].at == BadSince(h).value && Unbroken(g, k, |g|);
      forall m | k <= m < |h| ensures !Resets(h[m]) {
        assert m < |h| - 1 ==> g[m] == h[m];
      }
      assert h[k].Judged?;
    } else {
      assert h[|h| - 1].Judged?;
    }
  }

  lemma AppendFair(h: History, e: Event, now: real)
    requires AllFair(h) && AllBy(h, now) && By(e, now) && (e.Disarmed? || e.at == now)
    requires e.Did? ==> Due(h, e.action, e.at)
    requires e.Did? && e.action != LoopStart ==>
               BadSince(h).Some? && e.at - BadSince(h).value >= (if e.action == Tick then RUNTIME_BAD_GRACE else FALLBACK_GRACE)
    ensures AllFair(h + [e]) && AllBy(h + [e], now)
  {
    var g := h + [e];
    forall i | 0 <= i < |h| && h[i].Did? ensures Fair(g, i) {
      assert h[..i + 1] == g[..i + 1];
      SameVerdict(h, g, i);
    }
    if e.Did? {
      forall j | 0 <= j < |h| && h[j].Did? && h[j].action == e.action && Remembered(g, j, |h|)
        ensures Apart(e.action, e.at - h[j].at)
      {
        assert forall m :: j < m < |h| ==> g[m] == h[m];
        LastDidBounds(h, e.action, j);
      }
      if e.action != LoopStart {
        BadSinceWitness(h);
        var k :| 0 <= k < |h| && h[k].Judged? && !h[k].healthy && h[k].at == BadSince(h).value && Unbroken(h, k, |h|);
        assert Unbroken(g, k, |h|) && g[k].Judged?;
      }
    }
  }

  lemma ByLater(h: History, now: real, later: real)
    requires AllBy(h, now) && now <= later
    ensures AllBy(h, later)
  {}

  lemma AppendLasts(h: History, e: Event)
    ensures Init(h + [e]) == h && Last(h + [e]) == e
    ensures BadSince(h + [e]) == if Resets(e) then None
                                 else if BadSince(h).None? && e.Judged? then Some(e.at) else BadSince(h)
    ensures forall a :: LastDid(h + [e], a) == if e.Forgotten? then 0.0 else if e.Did? && e.action == a then e.at else LastDid(h, a)
  {}

  lemma BadKeepsFair(h: History, l: Look, loopRunning: bool, runtimeRunning: bool)
    requires AllFair(h) && AllBy(h, l.now) && l.Clocked()
    ensures AllFair(AfterBad(h, l, loopRunning, runtimeRunning)) && AllBy(AfterBad(h, l, loopRunning, runtimeRunning), l.fallbackAt)
  {
    var judged := h + [Judged(l.now, false)];
    AppendFair(h, Judged(l.now, false), l.now);
    AppendLasts(h, Judged(l.now, false));
    BadSinceWitness(judged);
    var badFor := BadFor(judged, l.now);
    ByLater(judged, l.now, l.tickAt);
    var ticked := judged;
    if badFor >= RUNTIME_BAD_GRACE && !loopRunning && Due(judged, Tick, l.tickAt) {
      AppendFair(judged, Did(l.tickAt, Tick), l.tickAt);
      AppendLasts(judged, Did(l.tickAt, Tick));
      ticked := judged + [Did(l.tickAt, Tick)];
    }
    ByLater(ticked, l.tickAt, l.fallbackAt);
    if badFor >= FALLBACK_GRACE && Due(ticked, Fallback, l.fallbackAt) {
      AppendFair(ticked, Did(l.fallbackAt, Fallback), l.fallbackAt);
    }
  }

  lemma TurnKeepsFair(h: History, l: Look)
    requires AllFair(h) && AllBy(h, l.startAt) && l.Clocked()
    ensures AllFair(AfterTurn(h, l)) && AllBy(AfterTurn(h, l), l.fallbackAt)
  {
    ByLater(h, l.startAt, l.fallbackAt);
    if !l.autostart {
      AppendFair(h, Disarmed, l.fallbackAt);
    } else if l.status.Some? {
      var (g, loop) := AfterLoop(h, l);
      if g != h {
        AppendFair(h, Did(l.startAt, LoopStart), l.startAt);
      }
      ByLater(g, l.startAt, l.now);
      ByLater(g, l.now, l.fallbackAt);
      if loop.Some? && !loop.value.stalled && l.runtime.Some? {
        if OutputsHealthy(l.runtime.value) {
          AppendFair(g, Judged(l.now, true), l.now);
          ByLater(g + [Judged(l.now, true)], l.now, l.fallbackAt);
        } else {
          BadKeepsFair(g, l, loop.value.running, l.runtime.value.running);
        }
      }
    }
  }

  // ---- What a turn does, exactly ------------------------------------------------------------

  lemma {:induction false} LastDidWitness(h: History, a: Action)
    ensures LastDid(h, a) == 0.0
            || exists j :: 0 <= j < |h| && h[j] == Did(LastDid(h, a), a) && Remembered(h, j, |h|)
  {
    if h != [] && !Last(h).Forgotten? {
      if Last(h).Did? && Last(h).action == a {
        assert h[|h| - 1] == Did(LastDid(h, a), a) && Remembered(h, |h| - 1, |h|);
      } else {
        LastDidWitness(Init(h), a);
        if j :| 0 <= j < |Init(h)| && Init(h)[j] == Did(LastDid(h, a), a) && Remembered(Init(h), j, |h| - 1) {
          assert forall m :: j < m < |h| - 1 ==> Init(h)[m] == h[m];
          assert h[j] == Did(LastDid(h, a), a) && Remembered(h, j, |h|);
        }
      }
    }
  }

  lemma {:induction false} LastDidIsLatest(h: History, a: Action, j: nat, now: real)
    requires AllBy(h, now) && j < |h| && h[j].Did? && h[j].action == a && Remembered(h, j, |h|)
    ensures h[j].at <= LastDid(h, a)
  {
    if j < |h| - 1 && !(Last(h).Did? && Last(h).action == a) {
      assert Init(h)[j] == h[j] && Remembered(Init(h), j, |h| - 1);
      LastDidIsLatest(Init(h), a, j, now);
    }
  }

  /** The clock has reached the distance, and no remembered request of the kind is nearer than it. */
  ghost predicate Ripe(h: History, a: Action, at: real) {
    Apart(a, at) && Spaced(h + [Did(at, a)], |h|)
  }

  lemma DueExactly(h: History, a: Action, at: real)
    requires AllBy(h, at)
    ensures Due(h, a, at) <==> Ripe(h, a, at)
  {
    var g := h + [Did(at, a)];
    LastDidWitness(h, a);
    assert forall m :: 0 <= m < |h| ==> g[m] == h[m];
    if Due(h, a, at) {
      forall j | 0 <= j < |h| && g[j].Did? && g[j].action == a && Remembered(g, j, |h|) ensures Apart(a, at - g[j].at) {
        assert Remembered(h, j, |h|);
        LastDidIsLatest(h, a, j, at);
      }
    } else if LastDid(h, a) != 0.0 {
      var j :| 0 <= j < |h| && h[j] == Did(LastDid(h, a), a) && Remembered(h, j, |h|);
      assert Remembered(g, j, |h|) && g[j].Did?;
    }
  }

  /** The last event judged the runtime bad, and so did one at least `grace` before it, never broken since. */
  ghost predicate LongBad(h: History, grace: real) {
    h != [] && Last(h).Judged?
    && exists k :: 0 <= k < |h| && h[k].Judged? && !h[k].healthy && Last(h).at - h[k].at >= grace && Unbroken(h, k, |h|)
  }

  lemma {:induction false} BadSinceIsFirst(h: History, k: nat, now: real)
    requires AllBy(h, now) && k < |h| && h[k].Judged? && !h[k].healthy && Unbroken(h, k, |h|)
    ensures BadSince(h).Some? && BadSince(h).value <= h[k].at
  {
    assert !Resets(h[|h| - 1]);
    if k < |h| - 1 {
      assert Init(h)[k] == h[k] && Unbroken(Init(h), k, |h| - 1);
      BadSinceIsFirst(Init(h), k, now);
    } else if BadSince(Init(h)).Some? {
      BadSinceWitness(Init(h));
    }
  }

  lemma BadForExactly(h: History, now: real, grace: real)
    requires AllBy(h, now) && 0.0 < now && h != [] && Last(h) == Judged(now, false)
    ensures BadFor(h, now) >= grace <==> LongBad(h, grace)
  {
    BadSinceIsFirst(h, |h| - 1, now);
    BadSinceWitness(h);
    if LongBad(h, grace) {
      var k :| 0 <= k < |h| && h[k].Judged? && !h[k].healthy && Last(h).at - h[k].at >= grace && Unbroken(h, k, |h|);
      BadSinceIsFirst(h, k, now);
    }
  }

  /** A runtime is fine when it runs and no output it is known to require is missing or down. */
  ghost predicate Plays(r: Runtime) {
    r.running && (!r.wellFormed
                  || (set name | name in r.required && r.required[name] && (name !in r.branches || !r.branches[name])) == {})
  }

  lemma HealthyExactly(r: Runtime)
    ensures OutputsHealthy(r) <==> Plays(r)
  {
    var missing := set name | name in r.required && r.required[name] && (name !in r.branches || !r.branches[name]);
    if r.running && r.wellFormed {
      if OutputsHealthy(r) {
        assert forall name :: name !in missing;
      } else {
        var name :| name in r.required && r.required[name] && !(name in r.branches && r.branches[name]);
        assert name in missing;
      }
    }
  }

  /** The turn starts the loop: it is armed and answered, the loop is down, and a start is ripe. */
  ghost predicate StartsLoop(h: History, l: Look) {
    l.autostart && l.status.Some? && !l.status.value.running && Ripe(h, LoopStart, l.startAt)
  }

  /** The loop as the turn knows it after that. */
  ghost function LoopSeen(h: History, l: Look): Option<Loop> {
    if !l.autostart then None else if StartsLoop(h, l) then l.started else l.status
  }

  /** A bad runtime, whole: a tick after 6 s of it and a fallback after 20 s, each while the loop is down
      and as soon as it is ripe. A fallback also needs the runtime down, and no tick that just raised. */
  ghost predicate Handled(h: History, g: History, l: Look, loopRunning: bool, runtimeRunning: bool) {
    var judged := h + [Judged(l.now, false)];
    var ticks := !loopRunning && LongBad(judged, 6.0) && Ripe(judged, Tick, l.tickAt);
    var ticked := if ticks then judged + [Did(l.tickAt, Tick)] else judged;
    var falls := !loopRunning && !runtimeRunning && !(ticks && !l.ticks) && LongBad(judged, 20.0)
                 && Ripe(ticked, Fallback, l.fallbackAt);
    g == if falls then ticked + [Did(l.fallbackAt, Fallback)] else ticked
  }

  lemma BadExactly(h: History, l: Look, loopRunning: bool, runtimeRunning: bool)
    requires AllBy(h, l.now) && l.Clocked()
    ensures Handled(h, AfterBad(h, l, loopRunning, runtimeRunning), l, loopRunning, runtimeRunning)
  {
    var judged := h + [Judged(l.now, false)];
    BadForExactly(judged, l.now, 6.0);
    BadForExactly(judged, l.now, 20.0);
    ByLater(judged, l.now, l.tickAt);
    DueExactly(judged, Tick, l.tickAt);
    var ticked := judged + [Did(l.tickAt, Tick)];
    assert AllBy(ticked, l.tickAt);
    ByLater(judged, l.now, l.fallbackAt);
    ByLater(ticked, l.tickAt, l.fallbackAt);
    DueExactly(judged, Fallback, l.fallbackAt);
    DueExactly(ticked, Fallback, l.fallbackAt);
  }

  /** One turn, whole: what it records in each case, and when it asks for a restart. */
  ghost predicate Turned(h: History, g: History, stalls: bool, l: Look) {
    var after := if StartsLoop(h, l) then h + [Did(l.startAt, LoopStart)] else h;
    var loop := LoopSeen(h, l);
    && (stalls <==> loop.Some? && loop.value.stalled)
    && (!l.autostart ==> g == h + [Disarmed])
    && (l.autostart && (loop.None? || stalls || l.runtime.None?) ==> g == after)
    && (loop.Some? && !stalls && l.runtime.Some? ==>
          if Plays(l.runtime.value) then g == after + [Judged(l.now, true)]
          else Handled(after, g, l, loop.value.running, l.runtime.value.running))
  }

  /** A request of the turn raised: for the loop, for the runtime, or the tick. */
  ghost predicate Fails(h: History, g: History, l: Look) {
    var loop := LoopSeen(h, l);
    l.autostart
    && (loop.None? || (!loop.value.stalled
                       && (l.runtime.None? || (!l.ticks && !Plays(l.runtime.value) && g != [] && Last(g) == Did(l.tickAt, Tick)))))
  }

  lemma TurnExactly(h: History, l: Look)
    requires AllBy(h, l.startAt) && l.Clocked()
    ensures Turned(h, AfterTurn(h, l), Stalls(h, l), l)
  {
    DueExactly(h, LoopStart, l.startAt);
    if l.autostart && l.status.Some? {
      var (g, loop) := AfterLoop(h, l);
      if loop.Some? && !loop.value.stalled && l.runtime.Some? {
        HealthyExactly(l.runtime.value);
        if !OutputsHealthy(l.runtime.value) {
          BadExactly(g, l, loop.value.running, l.runtime.value.running);
        }
      }
    }
  }

  /** Over any run of turns between two restarts, whatever the backend answers: loop starts are 10 s apart, ticks 5 s and
      only after 6 s of a runtime judged bad, emergency fallbacks 30 s and only after 20 s of it. */
  lemma {:induction false} RunIsFair(looks: seq<Look>)
    requires Clocked(looks)
    ensures AllFair(Run(looks))
    ensures AllBy(Run(looks), if looks == [] then 0.0 else looks[|looks| - 1].fallbackAt)
  {
    if looks != [] {
      var n := |looks| - 1;
      RunIsFair(looks[..n]);
      assert n > 0 ==> looks[..n][n - 1] == looks[n - 1];
      ByLater(Run(looks[..n]), if n == 0 then 0.0 else looks[n - 1].fallbackAt, looks[n].startAt);
      TurnKeepsFair(Run(looks[..n]), looks[n]);
    }
  }

  /** Each turn of a run, after any others, is told by `Turned`. */
  lemma {:induction false} RunIsExact(before: seq<Look>, l: Look)
    requires Clocked(before + [l])
    ensures Turned(Run(before), Run(before + [l]), Stalls(Run(before), l), l)
  {
    var looks, n := before + [l], |before|;
    assert looks[..n] == before && looks[n] == l;
    assert forall i :: 0 <= i < n ==> before[i] == looks[i];
    RunIsFair(before);
    ByLater(Run(before), if n == 0 then 0.0 else before[n - 1].fallbackAt, l.startAt);
    TurnExactly(Run(before), l);
  }

  /** A fallback means nothing is on air: neither the loop nor the runtime is running. */
  lemma FallbackMeansSilence(h: History, l: Look)
    requires AfterTurn(h, l) != [] && Last(AfterTurn(h, l)) == Did(l.fallbackAt, Fallback)
    requires |AfterTurn(h, l)| > |h|
    ensures l.autostart && l.status.Some? && l.runtime.Some? && !l.runtime.value.running
    ensures AfterLoop(h, l).1.Some? && !AfterLoop(h, l).1.value.running
  {}

  // ---- The station state --------------------------------------------------------------------

  class Watch {
    var lastLoopStart: real
    var lastTick: real
    var lastFallback: real
    var badSince: Option<real>
    ghost var history: History

    ghost predicate Valid()
      reads this
    {
      && lastLoopStart == LastDid(history, LoopStart) && lastTick == LastDid(history, Tick)
      && lastFallback == LastDid(history, Fallback) && badSince == BadSince(history)
    }

    /** A new state, for a station never seen or one whose state was lost. */
    constructor (ghost past: History)
      requires past == [] || Last(past).Forgotten?
      ensures Valid() && history == past
    {
      lastLoopStart, lastTick, lastFallback, badSince, history := 0.0, 0.0, 0.0, None, past;
    }

    ghost method Record(e: Event)
      modifies this`history
      ensures history == old(history) + [e]
      ensures BadSince(history) == if Resets(e) then None
                                   else if BadSince(old(history)).None? && e.Judged? then Some(e.at) else BadSince(old(history))
      ensures forall a :: LastDid(history, a) == if e.Forgotten? then 0.0 else if e.Did? && e.action == a then e.at
                                                 else LastDid(old(history), a)
    {
      AppendLasts(history, e);
      history := history + [e];
    }

    method EnsureLoop(l: Look) returns (loop: Option<Loop>)
      requires Valid() && l.status.Some?
      modifies this
      ensures Valid() && (history, loop) == AfterLoop(old(history), l)
    {
      if l.status.value.running || l.startAt - lastLoopStart < Interval(LoopStart) {
        return l.status;
      }
      lastLoopStart := l.startAt;
      Record(Did(l.startAt, LoopStart));
      return l.started;
    }

    method HandleBad(l: Look, loopRunning: bool, runtimeRunning: bool) returns (turn: Turn)
      requires Valid()
      modifies this
      ensures Valid() && history != [] && history == AfterBad(old(history), l, loopRunning, runtimeRunning)
      ensures turn != RestartRequired
      ensures turn == Failed <==> !l.ticks && Last(history) == Did(l.tickAt, Tick)
    {
      Record(Judged(l.now, false));
      if badSince.None? {
        badSince := Some(l.now);
      }
      var badFor := l.now - if badSince.value == 0.0 then l.now else badSince.value;
      if badFor >= RUNTIME_BAD_GRACE && !loopRunning {
        if l.tickAt - lastTick >= Interval(Tick) {
          lastTick := l.tickAt;
          Record(Did(l.tickAt, Tick));
          if !l.ticks {
            return Failed;
          }
        }
      }
      if badFor >= FALLBACK_GRACE && !loopRunning && !runtimeRunning {
        if l.fallbackAt - lastFallback >= Interval(Fallback) {
          lastFallback := l.fallbackAt;
          Record(Did(l.fallbackAt, Fallback));
        }
      }
      return Quiet;
    }

    method Supervise(l: Look) returns (turn: Turn)
      requires Valid()
      modifies this
      ensures Valid() && history == AfterTurn(old(history), l)
      ensures turn == RestartRequired <==> Stalls(old(history), l)
      ensures l.Clocked() && AllBy(old(history), l.startAt) ==> Turned(old(history), history, turn == RestartRequired, l)
      ensures l.Clocked() && AllBy(old(history), l.startAt) ==> (turn == Failed <==> Fails(old(history), history, l))
    {
      if l.Clocked() && AllBy(history, l.startAt) {
        DueExactly(history, LoopStart, l.startAt);
        TurnExactly(history, l);
      }
      if l.runtime.Some? {
        HealthyExactly(l.runtime.value);
      }
      if !l.autostart {
        badSince := None;
        Record(Disarmed);
        return Quiet;
      }
      if l.status.None? {
        return Failed;
      }
      var loop := EnsureLoop(l);
      if loop.None? {
        return Failed;
      }
      if loop.value.stalled {
        return RestartRequired;
      }
      if l.runtime.None? {
        return Failed;
      }
      if OutputsHealthy(l.runtime.value) {
        badSince := None;
        Record(Judged(l.now, true));
        return Quiet;
      }
      turn := HandleBad(l, loop.value.running, l.runtime.value.running);
    }
  }
}
