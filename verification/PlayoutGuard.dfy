/** The playout guard's backend supervision (tools/legacy_playout_guard.py): when it may start or
    kill the backend. The specification reads only the history of what happened; the guard object
    keeps four timestamps instead, and its methods are proved to agree with the history. */
module PlayoutGuard {
  import opened Wrappers
  import StationWatch

  const START_INTERVAL := 20.0
  const START_GRACE := 120.0
  const STALL_GRACE := 300.0

  datatype Probe = Healthy | Unhealthy | Unreachable | Stalled

  datatype Cause = Ensured | Reload | WorkerStall

  /** A health probe, or a backend start; `kills` says whether running processes were ended first. */
  datatype Event =
    | Probed(at: real, status: Probe)
    | Started(at: real, cause: Cause, kills: bool)

  type History = seq<Event>

  // ---- What the history says ----------------------------------------------------------------

  predicate IsHealthy(e: Event) {
    e.Probed? && e.status == Healthy
  }

  predicate IsBad(e: Event) {
    e.Probed? && e.status != Healthy
  }

  /** A healthy probe, a reload or a worker-stall restart forgets how long the backend was bad. */
  predicate Resets(e: Event) {
    IsHealthy(e) || (e.Started? && e.cause != Ensured)
  }

  function Init(h: History): History
    requires h != []
  {
    h[..|h| - 1]
  }

  function Last(h: History): Event
    requires h != []
  {
    h[|h| - 1]
  }

  /** The time of the last start of any kind, 0 if there was none. */
  function LastStart(h: History): real {
    if h == [] then 0.0
    else if Last(h).Started? then Last(h).at
    else LastStart(Init(h))
  }

  /** Since when every probe has been bad, counted from the last reset. */
  function BadSince(h: History): Option<real> {
    if h == [] || Resets(Last(h)) then None
    else
      var earlier := BadSince(Init(h));
      if earlier.None? && IsBad(Last(h)) then Some(Last(h).at) else earlier
  }

  /** The last start, if no healthy probe followed it. */
  function StartingSince(h: History): Option<real> {
    if h == [] || IsHealthy(Last(h)) then None
    else if Last(h).Started? then Some(Last(h).at)
    else StartingSince(Init(h))
  }

  /** The stored value, or now where Python takes a zero timestamp for a missing one. */
  function OrNow(t: real, now: real): real {
    if t == 0.0 then now else t
  }

  /** Whether a bad probe at `now`, already the last event of `h`, makes the guard start the backend. */
  predicate StartsNow(h: History, now: real, status: Probe) {
    var badFor := match BadSince(h) case None => 0.0 case Some(t) => now - OrNow(t, now);
    && !(status != Stalled && StartingSince(h).Some? && now - OrNow(StartingSince(h).value, now) < START_GRACE)
    && !(status == Stalled && badFor < STALL_GRACE)
    && now - LastStart(h) >= START_INTERVAL
  }

  function AfterEnsure(h: History, now: real, status: Probe): History {
    var probed := h + [Probed(now, status)];
    if status != Healthy && StartsNow(probed, now, status)
    then probed + [Started(now, Ensured, status == Stalled)] else probed
  }

  /** One pass of the main loop. Publishing the capability, or taking the reload request, may raise. */
  datatype Cycle = Cycle(now: real, publishes: bool, reload: Option<bool>, probe: Probe, turns: seq<StationWatch.Turn>, stallAt: real)

  function AfterCycle(h: History, c: Cycle): History {
    if !c.publishes || c.reload.None? then h
    else if c.reload.value then h + [Started(c.now, Reload, true)]
    else
      var e := AfterEnsure(h, c.now, c.probe);
      if c.probe == Healthy && StationWatch.RestartRequired in c.turns then e + [Started(c.stallAt, WorkerStall, true)] else e
  }

  function Run(cycles: seq<Cycle>): History {
    if cycles == [] then [] else AfterCycle(Run(cycles[..|cycles| - 1]), cycles[|cycles| - 1])
  }

  /** The monotonic clock is positive and never runs backwards, within a cycle and between cycles. */
  predicate Clocked(cycles: seq<Cycle>) {
    && (forall i :: 0 <= i < |cycles| ==> 0.0 < cycles[i].now <= cycles[i].stallAt)
    && (forall i, j :: 0 <= i < j < |cycles| ==> cycles[i].stallAt <= cycles[j].now)
  }

  // ---- Timing -------------------------------------------------------------------------------

  /** Between positions k and i no event matches: no reset, or no healthy probe. */
  predicate Unbroken(h: History, k: int, i: int)
    requires 0 <= k <= i <= |h|
  {
    forall m :: k <= m < i ==> !(h[m].Probed? && h[m].status == Healthy) && !(h[m].Started? && h[m].cause in {Reload, WorkerStall})
  }

  predicate NoHealthy(h: History, k: int, i: int)
    requires 0 <= k <= i <= |h|
  {
    forall m :: k <= m < i ==> !(h[m].Probed? && h[m].status == Healthy)
  }

  /** The start at position i answers the bad probe just before it, and comes late enough. */
  ghost predicate WellTimed(h: History, i: nat)
    requires i < |h| && h[i].Started? && h[i].cause == Ensured
  {
    && i > 0 && h[i - 1].Probed? && h[i - 1].status != Healthy
    && (h[i].kills <==> h[i - 1].status == Stalled)
    // At least 20 s after any earlier start.
    && (forall j :: 0 <= j < i && h[j].Started? ==> h[i].at - h[j].at >= 20.0)
    // Unless it answers a stall: at least 120 s after an earlier start that no healthy probe followed.
    && (h[i - 1].status != Stalled ==>
          forall j :: 0 <= j < i && h[j].Started? && NoHealthy(h, j, i) ==> h[i].at - h[j].at >= 120.0)
    // A kill needs 300 s of bad probes, unbroken since the last reset.
    && (h[i].kills ==>
          exists k :: 0 <= k < i && h[k].Probed? && h[k].status != Healthy && Unbroken(h, k, i) && h[i].at - h[k].at >= 300.0)
  }

  ghost predicate TimingSafe(h: History) {
    forall i :: 0 <= i < |h| && h[i].Started? && h[i].cause == Ensured ==> WellTimed(h, i)
  }

  predicate Before(h: History, now: real) {
    && (forall i :: 0 <= i < |h| ==> 0.0 < h[i].at <= now)
    && (forall i, j :: 0 <= i < j < |h| ==> h[i].at <= h[j].at)
  }

  lemma {:induction false} LastStartBounds(h: History, j: nat)
    requires j < |h| && h[j].Started?
    requires forall a, b :: 0 <= a < b < |h| ==> h[a].at <= h[b].at
    ensures h[j].at <= LastStart(h)
  {
    if j < |h| - 1 && !Last(h).Started? {
      LastStartBounds(Init(h), j);
    }
  }

  /** A start that no healthy probe followed is at or before the one the guard remembers. */
  lemma {:induction false} StartingSinceBounds(h: History, j: nat)
    requires j < |h| && h[j].Started? && NoHealthy(h, j, |h|)
    requires forall a, b :: 0 <= a < b < |h| ==> h[a].at <= h[b].at
    ensures StartingSince(h).Some? && h[j].at <= StartingSince(h).value
    ensures exists m :: 0 <= m < |h| && h[m].Started? && h[m].at == StartingSince(h).value
  {
    if j < |h| - 1 && !Last(h).Started? {
      StartingSinceBounds(Init(h), j);
      var m :| 0 <= m < |Init(h)| && Init(h)[m].Started? && Init(h)[m].at == StartingSince(h).value;
      assert h[m] == Init(h)[m];
    } else {
      assert h[|h| - 1].Started?;
    }
  }

  /** The remembered bad time belongs to a bad probe with no reset since. */
  lemma {:induction false} BadSinceWitness(h: History)
    requires BadSince(h).Some?
    ensures exists k :: 0 <= k < |h| && IsBad(h[k]) && h[k].at == BadSince(h).value && Unbroken(h, k, |h|)
  {
    if BadSince(Init(h)).Some? {
      BadSinceWitness(Init(h));
      var k :| 0 <= k < |Init(h)| && IsBad(Init(h)[k]) && Init(h)[k].at == BadSince(h).value && Unbroken(Init(h), k, |Init(h)|);
      forall m | k <= m < |h| ensures !Resets(h[m]) {
        assert m < |h| - 1 ==> Init(h)[m] == h[m];
      }
      assert IsBad(h[k]);
    } else {
      assert IsBad(h[|h| - 1]);
    }
  }

  /** The guard's decision, taken from its three memories, yields a well-timed start. */
  lemma StartIsWellTimed(h: History, now: real, status: Probe)
    requires Before(h, now) && 0.0 < now && status != Healthy
    requires StartsNow(h + [Probed(now, status)], now, status)
    ensures WellTimed(h + [Probed(now, status), Started(now, Ensured, status == Stalled)], |h| + 1)
  {
    var probed := h + [Probed(now, status)];
    var e := h + [Probed(now, status), Started(now, Ensured, status == Stalled)];
    var i := |h| + 1;
    forall j | 0 <= j < i && e[j].Started? ensures now - e[j].at >= 20.0 {
      assert probed[j] == e[j];
      LastStartBounds(probed, j);
    }
    if status == Stalled {
      assert BadSince(probed).Some?;
      BadSinceWitness(probed);
      var k :| 0 <= k < |probed| && IsBad(probed[k]) && probed[k].at == BadSince(probed).value && Unbroken(probed, k, |probed|);
      forall m | k <= m < i ensures !Resets(e[m]) {
        assert e[m] == probed[m];
      }
      assert IsBad(e[k]) && e[k].at > 0.0;
    } else {
      forall j | 0 <= j < i && e[j].Started? && NoHealthy(e, j, i) ensures now - e[j].at >= 120.0 {
        forall m | j <= m < |probed| ensures !IsHealthy(probed[m]) {
          assert probed[m] == e[m];
        }
        assert probed[j] == e[j];
        StartingSinceBounds(probed, j);
      }
    }
  }

  // What the guard remembers is in the history.

  lemma {:induction false} LastStartWitness(h: History)
    ensures LastStart(h) == 0.0 || exists j :: 0 <= j < |h| && h[j].Started? && h[j].at == LastStart(h)
  {
    if h != [] {
      if Last(h).Started? {
        assert h[|h| - 1].Started?;
      } else {
        LastStartWitness(Init(h));
        if j :| 0 <= j < |Init(h)| && Init(h)[j].Started? && Init(h)[j].at == LastStart(h) {
          assert h[j].Started?;
        }
      }
    }
  }

  lemma {:induction false} StartingSinceWitness(h: History)
    requires StartingSince(h).Some?
    ensures exists j :: 0 <= j < |h| && h[j].Started? && h[j].at == StartingSince(h).value && NoHealthy(h, j, |h|)
  {
    if Last(h).Started? {
      assert h[|h| - 1].Started? && NoHealthy(h, |h| - 1, |h|);
    } else {
      StartingSinceWitness(Init(h));
      var g := Init(h);
      var j :| 0 <= j < |g| && g[j].Started? && g[j].at == StartingSince(h).value && NoHealthy(g, j, |g|);
      forall m | j <= m < |h| ensures !IsHealthy(h[m]) {
        assert m < |h| - 1 ==> h[m] == g[m];
      }
      assert h[j].Started?;
    }
  }

  /** The remembered bad time is no later than any bad probe with no reset since. */
  lemma {:induction false} BadSinceBounds(h: History, k: nat)
    requires k < |h| && IsBad(h[k]) && Unbroken(h, k, |h|)
    requires forall a, b :: 0 <= a < b < |h| ==> h[a].at <= h[b].at
    ensures BadSince(h).Some? && BadSince(h).value <= h[k].at
  {
    assert !Resets(h[|h| - 1]);
    if k < |h| - 1 {
      BadSinceBounds(Init(h), k);
    } else if BadSince(Init(h)).Some? {
      BadSinceWitness(Init(h));
    }
  }

  /** The guard answers a bad probe with a start, and a kill for a stall, exactly when that start is well
      timed and the clock itself has reached the 20 s. */
  lemma StartsExactly(h: History, now: real, status: Probe)
    requires Before(h, now) && 0.0 < now && status != Healthy
    ensures var probed := h + [Probed(now, status)];
            var started := probed + [Started(now, Ensured, status == Stalled)];
            AfterEnsure(h, now, status) == if now >= 20.0 && WellTimed(started, |h| + 1) then started else probed
  {
    var probed := h + [Probed(now, status)];
    var started := probed + [Started(now, Ensured, status == Stalled)];
    assert started == h + [Probed(now, status), Started(now, Ensured, status == Stalled)];
    if StartsNow(probed, now, status) {
      StartIsWellTimed(h, now, status);
      LastStartIsPast(probed, now);
    }
    if now >= 20.0 && WellTimed(started, |h| + 1) {
      WellTimedStarts(h, now, status);
    }
  }

  /** What a probe comes to. A good one is only noted; a bad one is answered with a start, and a kill for
      a stall, exactly when that is well timed and the clock itself has reached the 20 s. */
  ghost predicate Answered(h: History, g: History, now: real, status: Probe) {
    var probed := h + [Probed(now, status)];
    var started := probed + [Started(now, Ensured, status == Stalled)];
    g == if status != Healthy && now >= 20.0 && WellTimed(started, |h| + 1) then started else probed
  }

  lemma EnsureExactly(h: History, now: real, status: Probe)
    requires Before(h, now) && 0.0 < now
    ensures Answered(h, AfterEnsure(h, now, status), now, status)
  {
    if status != Healthy {
      StartsExactly(h, now, status);
    }
  }

  lemma AnswersExactly(h: History, now: real, status: Probe)
    ensures Before(h, now) && 0.0 < now ==> Answered(h, AfterEnsure(h, now, status), now, status)
  {
    if Before(h, now) && 0.0 < now {
      EnsureExactly(h, now, status);
    }
  }

  /** One pass, whole: a turn that asks for a restart is heard only behind a healthy probe. */
  ghost predicate Cycled(h: History, g: History, c: Cycle) {
    if !c.publishes || c.reload.None? then g == h
    else if c.reload.value then g == h + [Started(c.now, Reload, true)]
    else if c.probe != Healthy then Answered(h, g, c.now, c.probe)
    else g == h + [Probed(c.now, Healthy)]
              + if exists i :: 0 <= i < |c.turns| && c.turns[i] == StationWatch.RestartRequired
                then [Started(c.stallAt, WorkerStall, true)] else []
  }

  lemma CycleExactly(h: History, c: Cycle)
    requires Before(h, c.now) && 0.0 < c.now
    ensures Cycled(h, AfterCycle(h, c), c)
  {
    if c.probe != Healthy {
      EnsureExactly(h, c.now, c.probe);
    }
  }

  lemma SameUnbroken(h: History, g: History, k: int, i: int)
    requires 0 <= k <= i <= |h| && i <= |g| && Unbroken(h, k, i) && forall m :: k <= m < i ==> h[m] == g[m]
    ensures Unbroken(g, k, i)
  {
    forall m | k <= m < i
      ensures !(g[m].Probed? && g[m].status == Healthy) && !(g[m].Started? && g[m].cause in {Reload, WorkerStall})
    {
      assert h[m] == g[m];
    }
  }

  lemma LastStartIsPast(h: History, now: real)
    requires forall i :: 0 <= i < |h| ==> 0.0 < h[i].at <= now
    ensures LastStart(h) >= 0.0
  {
    LastStartWitness(h);
  }

  lemma WellTimedStarts(h: History, now: real, status: Probe)
    requires Before(h, now) && 20.0 <= now && status != Healthy
    requires WellTimed(h + [Probed(now, status), Started(now, Ensured, status == Stalled)], |h| + 1)
    ensures StartsNow(h + [Probed(now, status)], now, status)
  {
    var probed := h + [Probed(now, status)];
    var e := h + [Probed(now, status), Started(now, Ensured, status == Stalled)];
    assert forall m :: 0 <= m < |probed| ==> e[m] == probed[m];
    LastStartWitness(probed);
    if status == Stalled {
      var k :| 0 <= k < |h| + 1 && IsBad(e[k]) && Unbroken(e, k, |h| + 1) && now - e[k].at >= 300.0;
      SameUnbroken(e, probed, k, |probed|);
      BadSinceBounds(probed, k);
      BadSinceWitness(probed);
    } else if StartingSince(probed).Some? {
      StartingSinceWitness(probed);
      var j :| 0 <= j < |probed| && probed[j].Started? && probed[j].at == StartingSince(probed).value && NoHealthy(probed, j, |probed|);
      assert NoHealthy(e, j, |h| + 1) && e[j].Started?;
    }
  }

  /** Appending events that are no guard-decided start keeps every earlier verdict. */
  lemma VerdictsStand(h: History, more: History)
    requires TimingSafe(h)
    ensures forall i :: 0 <= i < |h| && h[i].Started? && h[i].cause == Ensured ==> WellTimed(h + more, i)
  {
    var e := h + more;
    forall i | 0 <= i < |h| && h[i].Started? && h[i].cause == Ensured ensures WellTimed(e, i) {
      assert WellTimed(h, i);
      forall j | 0 <= j < i && NoHealthy(e, j, i) ensures NoHealthy(h, j, i) {
        forall m | j <= m < i ensures !IsHealthy(h[m]) {
          assert e[m] == h[m];
        }
      }
      if h[i].kills {
        var k :| 0 <= k < i && IsBad(h[k]) && Unbroken(h, k, i) && h[i].at - h[k].at >= 300.0;
        assert forall m :: 0 <= m < i ==> e[m] == h[m];
        SameUnbroken(h, e, k, i);
        assert IsBad(e[k]);
      }
    }
  }

  lemma EnsureKeepsTiming(h: History, now: real, status: Probe)
    requires TimingSafe(h) && Before(h, now) && 0.0 < now
    ensures TimingSafe(AfterEnsure(h, now, status)) && Before(AfterEnsure(h, now, status), now)
  {
    var probed, e := h + [Probed(now, status)], AfterEnsure(h, now, status);
    if e == probed {
      VerdictsStand(h, [Probed(now, status)]);
    } else {
      var more := [Probed(now, status), Started(now, Ensured, status == Stalled)];
      assert e == h + more;
      VerdictsStand(h, more);
      StartIsWellTimed(h, now, status);
    }
  }

  lemma RestartKeepsTiming(h: History, now: real, cause: Cause)
    requires TimingSafe(h) && Before(h, now) && 0.0 < now && cause != Ensured
    ensures TimingSafe(h + [Started(now, cause, true)]) && Before(h + [Started(now, cause, true)], now)
  {
    VerdictsStand(h, [Started(now, cause, true)]);
  }

  lemma CycleKeepsTiming(h: History, c: Cycle)
    requires TimingSafe(h) && Before(h, c.now) && 0.0 < c.now <= c.stallAt
    ensures TimingSafe(AfterCycle(h, c)) && Before(AfterCycle(h, c), c.stallAt)
  {
    if c.publishes && c.reload.Some? {
      if c.reload.value {
        RestartKeepsTiming(h, c.now, Reload);
      } else {
        EnsureKeepsTiming(h, c.now, c.probe);
        var e := AfterEnsure(h, c.now, c.probe);
        if c.probe == Healthy && StationWatch.RestartRequired in c.turns {
          RestartKeepsTiming(e, c.stallAt, WorkerStall);
        }
      }
    }
  }

  /** Over any run of the main loop, with any probes, reload requests and stalls: every start the
      guard decides on is at least 20 s after any start; unless it answers a stall, at least 120 s
      after a start no healthy probe followed; and it kills the backend only after 300 s of probes
      that were all bad since the last reset. */
  lemma {:induction false} RunIsTimingSafe(cycles: seq<Cycle>)
    requires Clocked(cycles)
    ensures TimingSafe(Run(cycles))
    ensures cycles != [] ==> Before(Run(cycles), cycles[|cycles| - 1].stallAt)
    ensures cycles == [] ==> Run(cycles) == []
  {
    if cycles != [] {
      var n := |cycles| - 1;
      RunIsTimingSafe(cycles[..n]);
      assert n > 0 ==> cycles[..n][n - 1] == cycles[n - 1];
      assert Before(Run(cycles[..n]), cycles[n].now);
      CycleKeepsTiming(Run(cycles[..n]), cycles[n]);
    }
  }

  /** One pass of the loop starts the backend at most once. */
  lemma OneStartPerCycle(h: History, c: Cycle)
    ensures var e := AfterCycle(h, c);
            h <= e && forall i, j :: |h| <= i < j < |e| ==> !e[i].Started? || !e[j].Started?
  {}

  /** The 300 s run from the last reset, and the guard's own start is none: once it has killed a stalled
      backend, it kills the one it started, still stalled, exactly from 20 s later on. */
  lemma StallKillRepeats(h: History, first: real, second: real)
    requires Before(h, first) && 0.0 < first <= second
    requires AfterEnsure(h, first, Stalled) == h + [Probed(first, Stalled), Started(first, Ensured, true)]
    ensures AfterEnsure(AfterEnsure(h, first, Stalled), second, Stalled)
              == h + [Probed(first, Stalled), Started(first, Ensured, true), Probed(second, Stalled)]
                 + if first + 20.0 <= second then [Started(second, Ensured, true)] else []
  {
    var probed := h + [Probed(first, Stalled)];
    var killed := AfterEnsure(h, first, Stalled);
    var again := killed + [Probed(second, Stalled)];
    assert |killed| == |h| + 2 && killed != probed;
    assert StartsNow(probed, first, Stalled);
    assert Init(killed) == probed && Init(again) == killed;
    BadSinceWitness(probed);
    assert BadSince(again) == BadSince(killed) == BadSince(probed);
    assert LastStart(again) == LastStart(killed) == first;
    assert StartsNow(again, second, Stalled) <==> first + 20.0 <= second;
  }

  // ---- The guard object ---------------------------------------------------------------------

  class Guard {
    var lastStart: real
    var badSince: Option<real>
    var startingSince: Option<real>
    ghost var history: History

    ghost predicate Valid()
      reads this
    {
      lastStart == LastStart(history) && badSince == BadSince(history) && startingSince == StartingSince(history)
    }

    constructor ()
      ensures Valid() && history == []
    {
      lastStart, badSince, startingSince, history := 0.0, None, None, [];
    }

    method EnsureBackend(now: real, status: Probe) returns (up: bool)
      requires Valid()
      modifies this
      ensures Valid() && history == AfterEnsure(old(history), now, status)
      ensures up == (status == Healthy)
      ensures Before(old(history), now) && 0.0 < now ==> Answered(old(history), history, now, status)
    {
      AnswersExactly(history, now, status);
      history := history + [Probed(now, status)];
      assert Init(history) == old(history);
      if status == Healthy {
        badSince, startingSince := None, None;
        return true;
      }
      if badSince.None? {
        badSince := Some(now);
      }
      var badFor := now - OrNow(badSince.value, now);
      if status != Stalled && startingSince.Some? && now - OrNow(startingSince.value, now) < START_GRACE {
        return false;
      }
      if status == Stalled && badFor < STALL_GRACE {
        return false;
      }
      if now - lastStart >= START_INTERVAL {
        lastStart, startingSince := now, Some(now);
        ghost var probed := history;
        history := history + [Started(now, Ensured, status == Stalled)];
        assert Init(history) == probed;
      }
      return false;
    }

    /** The reload and the worker-stall path: kill, start, and forget the bad time. */
    method Restart(now: real, cause: Cause)
      requires Valid() && cause != Ensured
      modifies this
      ensures Valid() && history == old(history) + [Started(now, cause, true)]
    {
      lastStart, startingSince, badSince := now, Some(now), None;
      history := history + [Started(now, cause, true)];
      assert Init(history) == old(history);
    }

    method RunCycle(c: Cycle)
      requires Valid()
      modifies this
      ensures Valid() && history == AfterCycle(old(history), c)
      ensures Before(old(history), c.now) && 0.0 < c.now ==> Cycled(old(history), history, c)
    {
      if Before(history, c.now) && 0.0 < c.now {
        CycleExactly(history, c);
      }
      if !c.publishes || c.reload.None? {
        return;
      }
      if c.reload.value {
        Restart(c.now, Reload);
        return;
      }
      var up := EnsureBackend(c.now, c.probe);
      if up {
        ghost var checked := history;
        var i := 0;
        while i < |c.turns|
          invariant 0 <= i <= |c.turns| && StationWatch.RestartRequired !in c.turns[..i]
          invariant Valid() && history == checked
        {
          if c.turns[i] == StationWatch.RestartRequired {
            Restart(c.stallAt, WorkerStall);
            return;
          }
          i := i + 1;
        }
      }
    }
  }
}
