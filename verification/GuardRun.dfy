/** The guard's main loop (tools/legacy_playout_guard.py, `main`): the backend's supervision and every
    station's turn, with the worker-stall restart that joins them. The station histories run on over
    such a restart, which leaves a `Forgotten` in each. */
module GuardRun {
  import opened Wrappers
  import PlayoutGuard
  import StationWatch

  type Stations = map<int, StationWatch.History>

  datatype State = State(backend: PlayoutGuard.History, stations: Stations)

  /** One pass of the loop; the looks are those of the stations in the order they are visited. */
  datatype Pass = Pass(now: real, publishes: bool, reload: Option<bool>, probe: PlayoutGuard.Probe,
                       looks: seq<(int, StationWatch.Look)>, stallAt: real)

  function HistoryOf(s: Stations, id: int): StationWatch.History {
    if id in s then s[id] else []
  }

  /** The turns up to the first that asks for a restart, and whether one did. */
  function Visit(s: Stations, looks: seq<(int, StationWatch.Look)>): (Stations, bool)
    decreases |looks|
  {
    if looks == [] then (s, false)
    else
      var (id, l) := looks[0];
      var visited := s[id := StationWatch.AfterTurn(HistoryOf(s, id), l)];
      if StationWatch.Stalls(HistoryOf(s, id), l) then (visited, true) else Visit(visited, looks[1..])
  }

  function Forget(s: Stations, at: real): Stations {
    map id | id in s :: s[id] + [StationWatch.Forgotten(at)]
  }

  /** The stations' turns, and the restart that drops all station states. */
  function AfterTurns(s: State, p: Pass): State {
    var (stations, stalled) := Visit(s.stations, p.looks);
    if stalled then State(s.backend + [PlayoutGuard.Started(p.stallAt, PlayoutGuard.WorkerStall, true)], Forget(stations, p.stallAt))
    else s.(stations := stations)
  }

  function AfterPass(s: State, p: Pass): State {
    if !p.publishes || p.reload.None? then s
    else if p.reload.value then s.(backend := s.backend + [PlayoutGuard.Started(p.now, PlayoutGuard.Reload, true)])
    else
      var probed := s.(backend := PlayoutGuard.AfterEnsure(s.backend, p.now, p.probe));
      if p.probe == PlayoutGuard.Healthy then AfterTurns(probed, p) else probed
  }

  function Run(passes: seq<Pass>): State {
    if passes == [] then State([], map[]) else AfterPass(Run(passes[..|passes| - 1]), passes[|passes| - 1])
  }

  /** The clock readings of a pass, in the order they are taken. */
  predicate PassClocked(p: Pass) {
    && 0.0 < p.now <= p.stallAt
    && (forall i :: 0 <= i < |p.looks| ==>
          p.looks[i].1.Clocked() && p.now <= p.looks[i].1.startAt && p.looks[i].1.fallbackAt <= p.stallAt)
    && (forall i, j :: 0 <= i < j < |p.looks| ==> p.looks[i].1.fallbackAt <= p.looks[j].1.startAt)
  }

  predicate Clocked(passes: seq<Pass>) {
    && (forall i :: 0 <= i < |passes| ==> PassClocked(passes[i]))
    && (forall i, j :: 0 <= i < j < |passes| ==> passes[i].stallAt <= passes[j].now)
  }

  // ---- The backend --------------------------------------------------------------------------

  /** The pass as the backend's supervision sees it: the turns matter only by a restart. */
  function CycleOf(s: State, p: Pass): PlayoutGuard.Cycle {
    PlayoutGuard.Cycle(p.now, p.publishes, p.reload, p.probe,
                       if Visit(s.stations, p.looks).1 then [StationWatch.RestartRequired] else [], p.stallAt)
  }

  function Cycles(passes: seq<Pass>): (cycles: seq<PlayoutGuard.Cycle>)
    ensures |cycles| == |passes|
  {
    if passes == [] then []
    else var front := passes[..|passes| - 1]; Cycles(front) + [CycleOf(Run(front), passes[|passes| - 1])]
  }

  lemma PassIsCycle(s: State, p: Pass)
    ensures AfterPass(s, p).backend == PlayoutGuard.AfterCycle(s.backend, CycleOf(s, p))
  {
    assert StationWatch.RestartRequired in CycleOf(s, p).turns <==> Visit(s.stations, p.looks).1;
  }

  lemma {:induction false} BackendFollowsGuard(passes: seq<Pass>)
    ensures Run(passes).backend == PlayoutGuard.Run(Cycles(passes))
  {
    if passes != [] {
      var front, cycles := passes[..|passes| - 1], Cycles(passes);
      BackendFollowsGuard(front);
      PassIsCycle(Run(front), passes[|passes| - 1]);
      assert cycles[..|cycles| - 1] == Cycles(front) && cycles != [];
      assert PlayoutGuard.Run(cycles) == PlayoutGuard.AfterCycle(PlayoutGuard.Run(Cycles(front)), cycles[|cycles| - 1]);
    }
  }

  lemma {:induction false} CycleTimes(passes: seq<Pass>)
    ensures forall i :: 0 <= i < |passes| ==>
              Cycles(passes)[i].now == passes[i].now && Cycles(passes)[i].stallAt == passes[i].stallAt
  {
    if passes != [] {
      CycleTimes(passes[..|passes| - 1]);
    }
  }

  /** The backend's timing holds with the stations' own turns deciding on the worker-stall restarts. */
  lemma BackendIsTimingSafe(passes: seq<Pass>)
    requires Clocked(passes)
    ensures PlayoutGuard.TimingSafe(Run(passes).backend)
  {
    BackendFollowsGuard(passes);
    CycleTimes(passes);
    PlayoutGuard.RunIsTimingSafe(Cycles(passes));
  }

  // ---- The stations -------------------------------------------------------------------------

  ghost predicate AllFairBy(s: Stations, now: real) {
    forall id :: id in s ==> StationWatch.AllFair(s[id]) && StationWatch.AllBy(s[id], now)
  }

  lemma {:induction false} VisitKeepsFair(s: Stations, looks: seq<(int, StationWatch.Look)>, from: real, end: real)
    requires AllFairBy(s, from) && from <= end
    requires forall i :: 0 <= i < |looks| ==> looks[i].1.Clocked() && from <= looks[i].1.startAt && looks[i].1.fallbackAt <= end
    requires forall i, j :: 0 <= i < j < |looks| ==> looks[i].1.fallbackAt <= looks[j].1.startAt
    ensures AllFairBy(Visit(s, looks).0, end)
    decreases |looks|
  {
    if looks == [] {
      Later(s, from, end);
    } else {
      var (id, l) := looks[0];
      var visited := s[id := StationWatch.AfterTurn(HistoryOf(s, id), l)];
      StationWatch.ByLater(HistoryOf(s, id), from, l.startAt);
      StationWatch.TurnKeepsFair(HistoryOf(s, id), l);
      Later(s, from, l.fallbackAt);
      Later(visited, l.fallbackAt, end);
      if !StationWatch.Stalls(HistoryOf(s, id), l) {
        VisitKeepsFair(visited, looks[1..], l.fallbackAt, end);
      }
    }
  }

  lemma Later(s: Stations, now: real, later: real)
    requires AllFairBy(s, now) && now <= later
    ensures AllFairBy(s, later)
  {}

  lemma ForgetKeepsFair(s: Stations, at: real)
    requires AllFairBy(s, at) && 0.0 < at
    ensures AllFairBy(Forget(s, at), at)
  {
    forall id | id in s ensures StationWatch.AllFair(Forget(s, at)[id]) && StationWatch.AllBy(Forget(s, at)[id], at) {
      StationWatch.AppendFair(s[id], StationWatch.Forgotten(at), at);
    }
  }

  /** Over any run of the guard, for every station: two requests of a kind keep their distance of 10,
      5 or 30 s unless the station's state was lost between them, and ticks and fallbacks come only
      after their grace of a runtime judged bad since. */
  lemma {:induction false} StationsAreFair(passes: seq<Pass>)
    requires Clocked(passes)
    ensures AllFairBy(Run(passes).stations, if passes == [] then 0.0 else passes[|passes| - 1].stallAt)
  {
    if passes != [] {
      var n := |passes| - 1;
      var s, p := Run(passes[..n]), passes[n];
      StationsAreFair(passes[..n]);
      assert n > 0 ==> passes[..n][n - 1] == passes[n - 1];
      Later(s.stations, if n == 0 then 0.0 else passes[n - 1].stallAt, p.now);
      Later(s.stations, p.now, p.stallAt);
      VisitKeepsFair(s.stations, p.looks, p.now, p.stallAt);
      if Visit(s.stations, p.looks).1 {
        ForgetKeepsFair(Visit(s.stations, p.looks).0, p.stallAt);
      }
    }
  }

  // ---- What a lost state means --------------------------------------------------------------

  predicate RestartedAt(backend: PlayoutGuard.History, at: real) {
    PlayoutGuard.Started(at, PlayoutGuard.WorkerStall, true) in backend
  }

  /** Every loss of state in a station's history is one of the backend's worker-stall restarts. */
  predicate LossesAreRestarts(s: State) {
    forall id, i :: id in s.stations && 0 <= i < |s.stations[id]| && s.stations[id][i].Forgotten? ==>
      RestartedAt(s.backend, s.stations[id][i].at)
  }

  lemma TurnForgetsNothing(h: StationWatch.History, l: StationWatch.Look)
    ensures h <= StationWatch.AfterTurn(h, l)
    ensures forall i :: |h| <= i < |StationWatch.AfterTurn(h, l)| ==> !StationWatch.AfterTurn(h, l)[i].Forgotten?
  {}

  lemma {:induction false} VisitForgetsNothing(s: Stations, looks: seq<(int, StationWatch.Look)>, backend: PlayoutGuard.History)
    requires LossesAreRestarts(State(backend, s))
    ensures LossesAreRestarts(State(backend, Visit(s, looks).0))
    decreases |looks|
  {
    if looks != [] {
      var (id, l) := looks[0];
      var h := HistoryOf(s, id);
      var visited := s[id := StationWatch.AfterTurn(h, l)];
      TurnForgetsNothing(h, l);
      assert LossesAreRestarts(State(backend, visited)) by {
        forall x, i | x in visited && 0 <= i < |visited[x]| && visited[x][i].Forgotten?
          ensures RestartedAt(backend, visited[x][i].at)
        {
          assert x == id ==> i < |h| && visited[x][i] == h[i];
          assert x in s && s[x][i] == visited[x][i];
        }
      }
      if !StationWatch.Stalls(h, l) {
        VisitForgetsNothing(visited, looks[1..], backend);
      }
    }
  }

  lemma {:induction false} LossesFollowRestarts(passes: seq<Pass>)
    ensures LossesAreRestarts(Run(passes))
  {
    if passes != [] {
      var s, p := Run(passes[..|passes| - 1]), passes[|passes| - 1];
      LossesFollowRestarts(passes[..|passes| - 1]);
      VisitForgetsNothing(s.stations, p.looks, s.backend);
      var e := AfterPass(s, p);
      assert s.backend <= e.backend;
      assert forall x :: x in s.backend ==> x in e.backend;
      forall id, i | id in e.stations && 0 <= i < |e.stations[id]| && e.stations[id][i].Forgotten?
        ensures RestartedAt(e.backend, e.stations[id][i].at)
      {
        if e.stations != s.stations {
          var (stations, stalled) := Visit(s.stations, p.looks);
          if stalled && i == |stations[id]| {
            assert e.backend[|e.backend| - 1] == PlayoutGuard.Started(p.stallAt, PlayoutGuard.WorkerStall, true);
          } else {
            assert stations[id][i] == e.stations[id][i];
          }
        }
      }
    }
  }

  /** A restart does reset the timers: the same request is due again at once. */
  lemma RestartResetsTimers(h: StationWatch.History, at: real, a: StationWatch.Action)
    ensures forall later :: StationWatch.Due(h + [StationWatch.Forgotten(at)], a, later) <==> later >= StationWatch.Interval(a)
  {
    StationWatch.AppendLasts(h, StationWatch.Forgotten(at));
  }

  /** A look at a station whose loop is down and comes up stalled, or whose start gets no answer. */
  function StoppedLook(at: real, stalled: bool): StationWatch.Look {
    StationWatch.Look(true, Some(StationWatch.Loop(false, false)), at,
                      if stalled then Some(StationWatch.Loop(true, true)) else None, None, at, at, true, at)
  }

  function StartPass(id: int, at: real, stalled: bool): Pass {
    Pass(at, true, Some(false), PlayoutGuard.Healthy, [(id, StoppedLook(at, stalled))], at)
  }

  /** Two passes that start one station's loop twice, however little time lies between them: the first
      start leaves the worker stalled, and the restart drops the timer. */
  lemma RestartBreaksDistance(id: int, first: real, second: real)
    requires 10.0 <= first <= second
    ensures var passes := [StartPass(id, first, true), StartPass(id, second, false)];
            && Clocked(passes) && id in Run(passes).stations
            && Run(passes).stations[id] == [StationWatch.Did(first, StationWatch.LoopStart), StationWatch.Forgotten(first),
                                            StationWatch.Did(second, StationWatch.LoopStart)]
  {
    var passes := [StartPass(id, first, true), StartPass(id, second, false)];
    assert passes[..1] == [passes[0]] && passes[..1][..0] == [];
    assert Run(passes[..1]) == AfterPass(State([], map[]), passes[0]);
    StoppedVisit(map[], id, first, true);
    var h := [StationWatch.Did(first, StationWatch.LoopStart), StationWatch.Forgotten(first)];
    var started := map[id := h[..1]];
    assert HistoryOf(map[], id) + [StationWatch.Did(first, StationWatch.LoopStart)] == h[..1];
    assert Visit(map[], passes[0].looks) == (started, true);
    assert h[..1] + [StationWatch.Forgotten(first)] == h;
    assert Forget(started, first) == map[id := h];
    RestartResetsTimers(h[..1], first, StationWatch.LoopStart);
    StoppedVisit(map[id := h], id, second, false);
  }

  lemma StoppedVisit(s: Stations, id: int, at: real, stalled: bool)
    requires StationWatch.Due(HistoryOf(s, id), StationWatch.LoopStart, at)
    ensures Visit(s, [(id, StoppedLook(at, stalled))])
            == (s[id := HistoryOf(s, id) + [StationWatch.Did(at, StationWatch.LoopStart)]], stalled)
  {}

  // ---- What a pass does, exactly ------------------------------------------------------------

  /** The guard asks for each station once. */
  predicate OncePerStation(looks: seq<(int, StationWatch.Look)>) {
    forall i, j :: 0 <= i < j < |looks| ==> looks[i].0 != looks[j].0
  }

  /** No look before the k-th asks for a restart. */
  ghost predicate Reached(s: Stations, looks: seq<(int, StationWatch.Look)>, k: int)
    requires k <= |looks|
  {
    forall j :: 0 <= j < k ==> !StationWatch.Stalls(HistoryOf(s, looks[j].0), looks[j].1)
  }

  /** Every station up to the first that asks for a restart gets its turn, on its own history, and no
      other station does. */
  lemma {:induction false} EveryStationTurned(s: Stations, looks: seq<(int, StationWatch.Look)>, k: nat)
    requires OncePerStation(looks) && k < |looks|
    ensures var v, id := Visit(s, looks).0, looks[k].0;
            if Reached(s, looks, k) then id in v && v[id] == StationWatch.AfterTurn(HistoryOf(s, id), looks[k].1)
            else Visit(s, looks).1 && HistoryOf(v, id) == HistoryOf(s, id) && (id in v <==> id in s)
    decreases |looks|
  {
    var (id, l) := looks[0];
    var visited := s[id := StationWatch.AfterTurn(HistoryOf(s, id), l)];
    if StationWatch.Stalls(HistoryOf(s, id), l) {
      assert !Reached(s, looks, k) <==> k > 0;
    } else if k == 0 {
      OthersStay(visited, looks[1..], id);
    } else {
      EveryStationTurned(visited, looks[1..], k - 1);
      SameReach(s, looks, k);
    }
  }

  /** A station that is not looked at keeps its history. */
  lemma {:induction false} OthersStay(s: Stations, looks: seq<(int, StationWatch.Look)>, id: int)
    requires forall i :: 0 <= i < |looks| ==> looks[i].0 != id
    ensures id in Visit(s, looks).0 <==> id in s
    ensures HistoryOf(Visit(s, looks).0, id) == HistoryOf(s, id)
    decreases |looks|
  {
    if looks != [] {
      var (x, l) := looks[0];
      OthersStay(s[x := StationWatch.AfterTurn(HistoryOf(s, x), l)], looks[1..], id);
    }
  }

  lemma SameReach(s: Stations, looks: seq<(int, StationWatch.Look)>, k: nat)
    requires OncePerStation(looks) && 0 < k <= |looks| && !StationWatch.Stalls(HistoryOf(s, looks[0].0), looks[0].1)
    ensures Reached(s, looks, k)
            <==> Reached(s[looks[0].0 := StationWatch.AfterTurn(HistoryOf(s, looks[0].0), looks[0].1)], looks[1..], k - 1)
  {
    var visited, rest := s[looks[0].0 := StationWatch.AfterTurn(HistoryOf(s, looks[0].0), looks[0].1)], looks[1..];
    forall j | 0 < j < |looks| ensures HistoryOf(visited, rest[j - 1].0) == HistoryOf(s, looks[j].0) && rest[j - 1] == looks[j] {}
    if Reached(visited, rest, k - 1) {
      forall j | 0 < j < k ensures !StationWatch.Stalls(HistoryOf(s, looks[j].0), looks[j].1) {
        assert !StationWatch.Stalls(HistoryOf(visited, rest[j - 1].0), rest[j - 1].1);
      }
    }
  }

  /** The stations' turns, whole: the first n looks are taken, all of them or up to the one that asks
      for a restart, each as a turn on its station's own history. */
  ghost predicate Visited(s: Stations, v: Stations, stalled: bool, looks: seq<(int, StationWatch.Look)>, n: int) {
    && 0 <= n <= |looks| && (stalled ==> n > 0) && (!stalled ==> n == |looks|)
    && (forall k :: 0 <= k < n ==> looks[k].0 in v)
    && (forall k :: 0 <= k < n ==>
          StationWatch.Turned(HistoryOf(s, looks[k].0), v[looks[k].0], stalled && k == n - 1, looks[k].1))
    && (forall k :: n <= k < |looks| ==> HistoryOf(v, looks[k].0) == HistoryOf(s, looks[k].0))
    && (forall k :: n <= k < |looks| ==> (looks[k].0 in v <==> looks[k].0 in s))
    && (forall id :: (forall k :: 0 <= k < |looks| ==> looks[k].0 != id) ==>
          (id in v <==> id in s) && HistoryOf(v, id) == HistoryOf(s, id))
  }

  /** The looks taken: up to the first that asks for a restart. */
  ghost function Taken(s: Stations, looks: seq<(int, StationWatch.Look)>): (n: nat)
    ensures n <= |looks|
    decreases |looks|
  {
    if looks == [] then 0
    else
      var (id, l) := looks[0];
      1 + if StationWatch.Stalls(HistoryOf(s, id), l) then 0
          else Taken(s[id := StationWatch.AfterTurn(HistoryOf(s, id), l)], looks[1..])
  }

  lemma {:induction false} TakenExactly(s: Stations, looks: seq<(int, StationWatch.Look)>)
    requires OncePerStation(looks)
    ensures var n, stalled := Taken(s, looks), Visit(s, looks).1;
            && (stalled ==> n > 0) && (!stalled ==> n == |looks|)
            && (forall k :: 0 <= k < |looks| ==> (Reached(s, looks, k) <==> k < n))
            && (forall k :: 0 <= k < n ==>
                  (StationWatch.Stalls(HistoryOf(s, looks[k].0), looks[k].1) <==> stalled && k == n - 1))
    decreases |looks|
  {
    if looks != [] {
      var (id, l) := looks[0];
      var visited, rest, n := s[id := StationWatch.AfterTurn(HistoryOf(s, id), l)], looks[1..], Taken(s, looks);
      if !StationWatch.Stalls(HistoryOf(s, id), l) {
        TakenExactly(visited, rest);
        forall k | 0 < k < |looks| ensures Reached(s, looks, k) <==> k < n {
          SameReach(s, looks, k);
        }
        forall k | 0 < k < n
          ensures StationWatch.Stalls(HistoryOf(s, looks[k].0), looks[k].1) <==> Visit(s, looks).1 && k == n - 1
        {
          assert rest[k - 1] == looks[k] && HistoryOf(visited, looks[k].0) == HistoryOf(s, looks[k].0);
        }
      }
    }
  }

  /** What the clocks and the table give a pass to start from. */
  predicate Regular(s: State, p: Pass) {
    PassClocked(p) && OncePerStation(p.looks) && PlayoutGuard.Before(s.backend, p.now)
    && forall id :: id in s.stations ==> StationWatch.AllBy(s.stations[id], p.now)
  }

  lemma VisitExactly(s: State, p: Pass)
    requires Regular(s, p)
    ensures Visited(s.stations, Visit(s.stations, p.looks).0, Visit(s.stations, p.looks).1, p.looks, Taken(s.stations, p.looks))
  {
    var (v, stalled) := Visit(s.stations, p.looks);
    TakenExactly(s.stations, p.looks);
    forall k | 0 <= k < Taken(s.stations, p.looks)
      ensures p.looks[k].0 in v
                && StationWatch.Turned(HistoryOf(s.stations, p.looks[k].0), v[p.looks[k].0],
                                       stalled && k == Taken(s.stations, p.looks) - 1, p.looks[k].1)
    {
      EveryStationTurned(s.stations, p.looks, k);
      StationWatch.ByLater(HistoryOf(s.stations, p.looks[k].0), p.now, p.looks[k].1.startAt);
      StationWatch.TurnExactly(HistoryOf(s.stations, p.looks[k].0), p.looks[k].1);
    }
    forall k | Taken(s.stations, p.looks) <= k < |p.looks|
      ensures HistoryOf(v, p.looks[k].0) == HistoryOf(s.stations, p.looks[k].0) && (p.looks[k].0 in v <==> p.looks[k].0 in s.stations)
    {
      EveryStationTurned(s.stations, p.looks, k);
    }
    forall id | forall k :: 0 <= k < |p.looks| ==> p.looks[k].0 != id
      ensures (id in v <==> id in s.stations) && HistoryOf(v, id) == HistoryOf(s.stations, id)
    {
      OthersStay(s.stations, p.looks, id);
    }
  }

  /** One pass, whole. A restart that a station asks for adds a loss of state to every station. */
  ghost predicate Passed(s: State, e: State, p: Pass) {
    if !p.publishes || p.reload.None? then e == s
    else if p.reload.value then e == State(s.backend + [PlayoutGuard.Started(p.now, PlayoutGuard.Reload, true)], s.stations)
    else if p.probe != PlayoutGuard.Healthy then
      PlayoutGuard.Answered(s.backend, e.backend, p.now, p.probe) && e.stations == s.stations
    else Supervised(s, e, p)
  }

  ghost predicate Supervised(s: State, e: State, p: Pass) {
    exists v, stalled, n :: Visited(s.stations, v, stalled, p.looks, n) && Settled(v, e.stations, stalled, p.stallAt)
                            && Restarted(s.backend, e.backend, stalled, p)
  }

  ghost predicate Restarted(h: PlayoutGuard.History, g: PlayoutGuard.History, stalled: bool, p: Pass) {
    g == h + [PlayoutGuard.Probed(p.now, PlayoutGuard.Healthy)]
         + if stalled then [PlayoutGuard.Started(p.stallAt, PlayoutGuard.WorkerStall, true)] else []
  }

  /** With a restart every station's state is lost at that time, and nothing else happens. */
  ghost predicate Settled(v: Stations, after: Stations, stalled: bool, at: real) {
    after.Keys == v.Keys && forall id :: id in v ==> after[id] == v[id] + if stalled then [StationWatch.Forgotten(at)] else []
  }

  lemma SupervisedExactly(s: State, p: Pass)
    requires Regular(s, p) && p.publishes && p.reload == Some(false) && p.probe == PlayoutGuard.Healthy
    ensures Supervised(s, AfterPass(s, p), p)
  {
    var (v, stalled) := Visit(s.stations, p.looks);
    var n, e := Taken(s.stations, p.looks), AfterPass(s, p);
    VisitExactly(s, p);
    assert Restarted(s.backend, e.backend, stalled, p);
    Settles(v, stalled, p.stallAt);
    assert Visited(s.stations, v, stalled, p.looks, n) && Settled(v, e.stations, stalled, p.stallAt);
  }

  lemma Settles(v: Stations, stalled: bool, at: real)
    ensures Settled(v, if stalled then Forget(v, at) else v, stalled, at)
  {}

  lemma PassExactly(s: State, p: Pass)
    requires Regular(s, p)
    ensures Passed(s, AfterPass(s, p), p)
  {
    if p.publishes && p.reload == Some(false) {
      if p.probe == PlayoutGuard.Healthy {
        SupervisedExactly(s, p);
      } else {
        PlayoutGuard.EnsureExactly(s.backend, p.now, p.probe);
      }
    }
  }

  /** What a pass starts from holds all along a run, and so each of its passes is exact. */
  lemma {:induction false} RunIsExact(passes: seq<Pass>)
    requires passes != [] && Clocked(passes) && OncePerStation(passes[|passes| - 1].looks)
    ensures Passed(Run(passes[..|passes| - 1]), Run(passes), passes[|passes| - 1])
  {
    var front, p := passes[..|passes| - 1], passes[|passes| - 1];
    assert Clocked(front) && PassClocked(p);
    var now := if front == [] then 0.0 else front[|front| - 1].stallAt;
    if front != [] {
      assert front[|front| - 1] == passes[|passes| - 2];
    }
    StationsAreFair(front);
    BackendIsPast(front);
    Regularly(Run(front), p, now);
    PassExactly(Run(front), p);
  }

  lemma Regularly(s: State, p: Pass, now: real)
    requires PassClocked(p) && OncePerStation(p.looks) && now <= p.now
    requires AllFairBy(s.stations, now) && PlayoutGuard.Before(s.backend, now)
    ensures Regular(s, p)
  {
    Later(s.stations, now, p.now);
  }

  lemma BackendIsPast(passes: seq<Pass>)
    requires Clocked(passes)
    ensures PlayoutGuard.Before(Run(passes).backend, if passes == [] then 0.0 else passes[|passes| - 1].stallAt)
  {
    BackendFollowsGuard(passes);
    CycleTimes(passes);
    PlayoutGuard.RunIsTimingSafe(Cycles(passes));
  }

  // ---- The loop object ----------------------------------------------------------------------

  class GuardLoop {
    const guard: PlayoutGuard.Guard
    var watches: map<int, StationWatch.Watch>
    ghost var state: State

    ghost predicate Valid()
      reads this, guard, watches.Values
    {
      && guard.Valid() && guard.history == state.backend
      && Watching(watches, state.stations)
    }

    constructor ()
      ensures Valid() && fresh(guard) && watches == map[] && state == State([], map[])
    {
      guard := new PlayoutGuard.Guard();
      watches, state := map[], State([], map[]);
    }

    /** `setdefault`: a station without a state gets a new one. */
    method Open(id: int, ghost stations: Stations)
      requires Watching(watches, stations)
      modifies this`watches
      ensures id in watches && Watching(watches, stations[id := HistoryOf(stations, id)])
      ensures fresh(watches.Values - old(watches.Values))
    {
      if id !in watches {
        var w := new StationWatch.Watch(HistoryOf(stations, id));
        watches := watches[id := w];
      }
    }

    method Turn(id: int, l: StationWatch.Look, ghost stations: Stations) returns (stalled: bool)
      requires Watching(watches, stations)
      modifies this`watches, watches.Values
      ensures stalled == StationWatch.Stalls(HistoryOf(stations, id), l)
      ensures Watching(watches, stations[id := StationWatch.AfterTurn(HistoryOf(stations, id), l)])
      ensures fresh(watches.Values - old(watches.Values))
    {
      Open(id, stations);
      var w := watches[id];
      var turn := w.Supervise(l);
      assert forall x :: x in watches && x != id ==> watches[x] != w && watches[x].Valid();
      stalled := turn == StationWatch.RestartRequired;
    }

    /** The station loop, broken off by the first turn that asks for a restart. */
    method VisitAll(looks: seq<(int, StationWatch.Look)>, ghost stations: Stations)
      returns (stalled: bool, ghost after: Stations)
      requires Watching(watches, stations)
      modifies this`watches, watches.Values
      ensures Watching(watches, after) && (after, stalled) == Visit(stations, looks)
      ensures OncePerStation(looks) ==> forall k :: 0 <= k < |looks| && Reached(stations, looks, k) ==>
                looks[k].0 in after && after[looks[k].0] == StationWatch.AfterTurn(HistoryOf(stations, looks[k].0), looks[k].1)
      ensures fresh(watches.Values - old(watches.Values))
    {
      if OncePerStation(looks) {
        forall k | 0 <= k < |looks| && Reached(stations, looks, k)
          ensures looks[k].0 in Visit(stations, looks).0
                  && Visit(stations, looks).0[looks[k].0] == StationWatch.AfterTurn(HistoryOf(stations, looks[k].0), looks[k].1)
        {
          EveryStationTurned(stations, looks, k);
        }
      }
      after := stations;
      for i := 0 to |looks|
        invariant Watching(watches, after) && Visit(after, looks[i..]) == Visit(stations, looks)
        invariant fresh(watches.Values - old(watches.Values))
      {
        assert looks[i..][1..] == looks[i + 1..];
        var (id, l) := looks[i];
        stalled := Turn(id, l, after);
        after := after[id := StationWatch.AfterTurn(HistoryOf(after, id), l)];
        if stalled {
          return;
        }
      }
      stalled := false;
    }

    /** The healthy branch: the stations' turns, and the restart one of them may ask for. */
    method SuperviseAll(p: Pass)
      requires Valid()
      modifies this`watches, this`state, guard, watches.Values
      ensures Valid() && state == AfterTurns(old(state), p)
      ensures fresh(watches.Values - old(watches.Values))
    {
      var stalled;
      ghost var after;
      stalled, after := VisitAll(p.looks, state.stations);
      if stalled {
        guard.Restart(p.stallAt, PlayoutGuard.WorkerStall);
        watches, after := map[], Forget(after, p.stallAt);
      }
      state := State(guard.history, after);
    }

    method RunPass(p: Pass)
      requires Valid()
      modifies this`watches, this`state, guard, watches.Values
      ensures Valid() && state == AfterPass(old(state), p)
      ensures Regular(old(state), p) ==> Passed(old(state), state, p)
      ensures fresh(watches.Values - old(watches.Values))
    {
      if Regular(state, p) {
        PassExactly(state, p);
      }
      if !p.publishes || p.reload.None? {
        return;
      }
      if p.reload.value {
        guard.Restart(p.now, PlayoutGuard.Reload);
        state := state.(backend := guard.history);
        return;
      }
      var up := guard.EnsureBackend(p.now, p.probe);
      state := state.(backend := guard.history);
      if up {
        SuperviseAll(p);
      }
    }
  }

  /** Each state on record agrees with its station's history; a station without one has lost it. */
  ghost predicate Watching(watches: map<int, StationWatch.Watch>, stations: Stations)
    reads watches.Values
  {
    && watches.Keys <= stations.Keys
    && (forall id :: id in watches ==> watches[id].Valid() && watches[id].history == stations[id])
    && (forall a, b :: a in watches && b in watches && a != b ==> watches[a] != watches[b])
    && (forall id :: id in stations && id !in watches ==>
          stations[id] != [] && StationWatch.Last(stations[id]).Forgotten?)
  }
}
