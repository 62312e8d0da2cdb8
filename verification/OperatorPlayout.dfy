/** Operator stop and operator skip (app/api/runtime.py) over the queue transactions of
    app/repositories/queue_repo.py. One object is one station: its scheduler thread, its audio
    runtime, and the database both share. What every external call does is an input, so each
    contract holds for all combinations of call outcomes. */
module OperatorPlayout {
  import opened QueueTable
  import opened Wrappers

  datatype Current = Current(source: string, item: Option<int>)

  /** The tables the two operations touch. `changes` is the per-station queue change sequence. */
  datatype Db = Db(queue: Table, ads: Table, schedules: Table,
                   current: map<int, Current>, transitions: seq<(int, Current, Current)>,
                   changes: map<int, nat>)

  datatype Scheduler = NoLoop | Loop(alive: bool, stopSet: bool)
  {
    predicate Running() { Loop? && alive }
  }

  /** What the operations ask of the audio runtime, in order. */
  datatype Command = Kill | Start(uri: string)

  datatype State = State(db: Db, thread: Scheduler, running: bool, uri: string,
                         commands: seq<Command>, generation: nat)

  datatype Reason =
    | SchedulerNotRunning | SchedulerDidNotStop | QueueChanged | NoRuntimeAudio
    | RuntimeDidNotStop | PersistenceFailed
    | RestartFailed | ResumeFailed | ResumeFailedAfterCommit

  datatype Reply = Skipped(item: int, generation: nat) | Refused(reason: Reason) | Unhandled

  /** A stop call may end the process, may raise, or both: the registry reads the database for
      its status report after it has ended the process. */
  datatype StopCall = StopCall(kills: bool, raises: bool)

  datatype StartCall = StartCall(starts: bool, raises: bool)
  {
    predicate Works() { starts && !raises }
  }

  datatype SkipCalls = SkipCalls(
    threadExits: bool, statusRaises: bool, openRaises: bool, beginRaises: bool,
    probeRaises: bool, stop: StopCall, reprobeRaises: bool, commitRaises: bool,
    closeRaises: bool, restart: StartCall, resume: StartCall)

  /** The requeue may raise before it commits, or after it, where it counts the rows again. */
  datatype RequeueCall = Requeues | RaisesBeforeCommit | RaisesAfterCommit

  /** `statusRaises` is the status read before the stop, `reportRaises` the one for the response. */
  datatype StopCalls = StopCalls(
    threadExits: bool, statusRaises: bool, stop: StopCall, requeue: RequeueCall, reportRaises: bool)

  // ---- Queue transactions -------------------------------------------------------------------

  function ActiveIds(t: Table, station: int): set<int> {
    set id | id in t && t[id].station == station && t[id].Active()
  }

  /** What the operator's concurrency token digests: position and status of every active row. The
      source lists them in (position, id) order, so the list and this map determine each other. */
  type Token = map<int, (int, Status)>

  function Revision(t: Table, station: int): Token {
    map id | id in ActiveIds(t, station) :: (t[id].position, t[id].status)
  }

  predicate IsPlaying(t: Table, station: int, item: int) {
    item in t && t[item].station == station && t[item].status == Playing
  }

  function Finish(db: Db, station: int, item: int, now: int): Db
    requires item in db.queue
  {
    var seen := if station in db.changes then db.changes[station] else 0;
    db.(queue := db.queue[item := db.queue[item].(status := Done, finished := Some(now))],
        changes := db.changes[station := seen + 1])
  }

  function Requeue(t: Table, station: int, clearTimes: bool): Table {
    map id | id in t ::
      if t[id].station == station && t[id].status == Playing then
        if clearTimes then t[id].(status := Pending, started := None, finished := None)
        else t[id].(status := Pending)
      else t[id]
  }

  function CurrentOf(db: Db, station: int): Current {
    if station in db.current then db.current[station] else Current("none", None)
  }

  function SetCurrent(db: Db, station: int, next: Current): Db {
    var previous := CurrentOf(db, station);
    db.(current := db.current[station := next],
        transitions := if previous == next then db.transitions
                       else db.transitions + [(station, previous, next)])
  }

  function SetIdle(db: Db, station: int): Db {
    SetCurrent(db, station, Current("none", None))
  }

  function Preserve(db: Db, station: int): Db {
    SetIdle(db.(queue := Requeue(db.queue, station, true),
                ads := Requeue(db.ads, station, true),
                schedules := Requeue(db.schedules, station, false)), station)
  }

  // ---- What the two operations come to ------------------------------------------------------

  /** The row the operator named is playing and the queue is the one the operator saw. */
  predicate Selects(db: Db, station: int, item: int, expected: Token) {
    expected == Revision(db.queue, station) && IsPlaying(db.queue, station, item)
  }

  /** In what follows `selects` is the verdict of that validation. */
  predicate Prepared(running: bool, selects: bool, c: SkipCalls) {
    !c.openRaises && !c.beginRaises && selects && !c.probeRaises && running
  }

  /** The stop call and the check after it both come back. */
  predicate SeesOutcome(c: SkipCalls) {
    !c.stop.raises && !c.reprobeRaises
  }

  predicate KillsRuntime(running: bool, selects: bool, c: SkipCalls) {
    Prepared(running, selects, c) && c.stop.kills
  }

  predicate Commits(running: bool, selects: bool, c: SkipCalls) {
    KillsRuntime(running, selects, c) && SeesOutcome(c) && !c.commitRaises
  }

  /** Closing a connection that was never opened cannot fail. */
  predicate ClosesCleanly(c: SkipCalls) {
    c.openRaises || !c.closeRaises
  }

  /** The skip knows it ended the runtime of a row it could not finish. */
  predicate MustRecover(running: bool, selects: bool, c: SkipCalls) {
    KillsRuntime(running, selects, c) && SeesOutcome(c) && c.commitRaises && ClosesCleanly(c)
  }

  predicate AsksResume(running: bool, uri: string, selects: bool, c: SkipCalls) {
    ClosesCleanly(c) && (MustRecover(running, selects, c) ==> uri != "" && c.restart.Works())
  }

  /** A skip goes past its scheduler check only when the scheduler stops and the runtime status reads. */
  predicate EntersSkip(s: State, c: SkipCalls) {
    s.thread.Running() && c.threadExits && !c.statusRaises
  }

  /** What the part of a skip after the scheduler stop does, field by field. */
  function SkipBody(s: State, station: int, item: int, selects: bool, now: int, c: SkipCalls): State
    requires selects ==> item in s.db.queue
  {
    var restarts := MustRecover(s.running, selects, c) && s.uri != "";
    s.(db := if Commits(s.running, selects, c) then Finish(s.db, station, item, now) else s.db,
       thread := if AsksResume(s.running, s.uri, selects, c) && !c.resume.raises then Loop(c.resume.starts, false) else NoLoop,
       running := if restarts then c.restart.starts else s.running && !KillsRuntime(s.running, selects, c),
       commands := s.commands + (if KillsRuntime(s.running, selects, c) then [Kill] else [])
                              + (if restarts then [Start(s.uri)] else []))
  }

  function SkipEnd(s: State, station: int, item: int, selects: bool, now: int, c: SkipCalls): State
    requires selects ==> item in s.db.queue
  {
    var begun := s.(generation := s.generation + 1);
    if !s.thread.Running() then begun
    else if !c.threadExits then begun.(thread := Loop(true, true))
    else if c.statusRaises then begun.(thread := NoLoop)
    else SkipBody(begun, station, item, selects, now, c)
  }

  /** The first thing that went wrong in the guarded part. */
  function FailureOf(running: bool, selects: bool, c: SkipCalls): Option<Reason> {
    if c.openRaises || c.beginRaises then Some(PersistenceFailed)
    else if !selects then Some(QueueChanged)
    else if c.probeRaises then Some(PersistenceFailed)
    else if !running then Some(NoRuntimeAudio)
    else if !SeesOutcome(c) then Some(PersistenceFailed)
    else if !c.stop.kills then Some(RuntimeDidNotStop)
    else if c.commitRaises then Some(PersistenceFailed)
    else None
  }

  /** What the operator is told once the scheduler has stopped. */
  function BodyReply(running: bool, uri: string, generation: nat, item: int, selects: bool, c: SkipCalls): Reply {
    if !ClosesCleanly(c) then Unhandled
    else if MustRecover(running, selects, c) && (uri == "" || !c.restart.Works()) then Refused(RestartFailed)
    else
      match FailureOf(running, selects, c)
      case None => if c.resume.Works() then Skipped(item, generation) else Refused(ResumeFailedAfterCommit)
      case Some(reason) => Refused(if c.resume.Works() then reason else ResumeFailed)
  }

  function SkipReply(s: State, item: int, selects: bool, c: SkipCalls): Reply {
    if !s.thread.Running() then Refused(SchedulerNotRunning)
    else if !c.threadExits then Refused(SchedulerDidNotStop)
    else if c.statusRaises then Unhandled
    else BodyReply(s.running, s.uri, s.generation + 1, item, selects, c)
  }

  /** What a reply tells the operator about the rows and the scheduler. */
  predicate ReplyTells(s: State, e: State, station: int, item: int, expected: Token, now: int, c: SkipCalls, r: Reply) {
    var commits := Commits(s.running, Selects(s.db, station, item, expected), c);
    && (r.Skipped? <==> EntersSkip(s, c) && ClosesCleanly(c) && commits && e.thread.Running())
    && (r == Refused(ResumeFailedAfterCommit) <==> EntersSkip(s, c) && ClosesCleanly(c) && commits && !e.thread.Running())
    && (r.Skipped? ==> r == Skipped(item, e.generation))
    && (r.Skipped? || r == Refused(ResumeFailedAfterCommit) ==>
          IsPlaying(s.db.queue, station, item) && e.db == Finish(s.db, station, item, now))
    && (r.Refused? && r.reason != ResumeFailedAfterCommit ==> e.db == s.db)
    && (r.Refused? && r.reason in {RestartFailed, ResumeFailed, ResumeFailedAfterCommit} ==> !e.thread.Running())
    && (r.Refused? && r.reason in {QueueChanged, NoRuntimeAudio, RuntimeDidNotStop, PersistenceFailed} ==> e.thread.Running())
  }

  /** A store or registry call of the guarded part raised before the row was finished. */
  predicate Fails(running: bool, selects: bool, c: SkipCalls) {
    || c.openRaises || c.beginRaises
    || (selects && (c.probeRaises || (running && (!SeesOutcome(c) || (c.stop.kills && c.commitRaises)))))
  }

  function StopEnd(s: State, station: int, c: StopCalls): State {
    if s.thread.Running() && !c.threadExits then
      s.(thread := Loop(true, true), generation := s.generation + 1)
    else
      var killed := !c.statusRaises && s.running && c.stop.kills;
      var preserves := !c.statusRaises && !c.stop.raises && c.requeue != RaisesBeforeCommit;
      s.(db := if preserves then Preserve(s.db, station) else s.db,
         thread := NoLoop,
         running := s.running && !killed,
         commands := s.commands + (if killed then [Kill] else []),
         generation := s.generation + 1)
  }

  datatype Preservation = Preservation(preserved: bool, before: nat, after: nat,
                                       queueRequeued: nat, adsRequeued: nat, schedulesRequeued: nat,
                                       previous: Current)

  datatype StopReply = Stopped(report: Preservation, wasRunning: bool, generation: nat)
                     | StopRefused
                     | StopUnhandled

  function PlayingIds(t: Table, station: int): set<int> {
    set id | id in t && t[id].station == station && t[id].status == Playing
  }

  // ---- What the operator may rely on --------------------------------------------------------

  predicate ActiveHere(row: Row, station: int) {
    row.station == station && (row.status == Pending || row.status == Playing)
  }

  /** The station's active rows are the same in both tables, each in its place and with its status. */
  ghost predicate AsSeen(seen: Table, t: Table, station: int) {
    forall id :: (id in seen && ActiveHere(seen[id], station)) || (id in t && ActiveHere(t[id], station)) ==>
      && id in seen && id in t && ActiveHere(seen[id], station) && ActiveHere(t[id], station)
      && seen[id].position == t[id].position && seen[id].status == t[id].status
  }

  /** Tokens are equal exactly when the tables agree on the active rows, their places and their statuses. */
  lemma TokenIsExact(t: Table, u: Table, station: int)
    ensures Revision(t, station) == Revision(u, station) <==> AsSeen(t, u, station)
  {
    var a, b := Revision(t, station), Revision(u, station);
    assert forall id :: id in a <==> id in t && ActiveHere(t[id], station);
    assert forall id :: id in b <==> id in u && ActiveHere(u[id], station);
    if AsSeen(t, u, station) {
      forall id ensures (id in a <==> id in b) && (id in a ==> a[id] == b[id]) {
        assert id in t && ActiveHere(t[id], station) ==> id in u;
        assert id in u && ActiveHere(u[id], station) ==> id in t;
      }
      assert a.Keys == b.Keys;
    } else if a == b {
      forall id | (id in t && ActiveHere(t[id], station)) || (id in u && ActiveHere(u[id], station))
        ensures id in t && id in u && ActiveHere(t[id], station) && ActiveHere(u[id], station)
                && t[id].position == u[id].position && t[id].status == u[id].status
      {
        assert id in a && id in b && a[id] == b[id];
      }
    }
  }

  lemma TokenTells(t: Table, station: int)
    ensures forall seen: Table :: Revision(seen, station) == Revision(t, station) ==> AsSeen(seen, t, station)
  {
    forall seen: Table | Revision(seen, station) == Revision(t, station) ensures AsSeen(seen, t, station) {
      TokenIsExact(seen, t, station);
    }
  }

  /** The playing row is done, the change sequence one further, and nothing else is different. */
  ghost predicate Advanced(before: Db, after: Db, station: int, item: int, now: int) {
    && item in before.queue && before.queue[item].station == station && before.queue[item].status == Playing
    && after == before.(
         queue := before.queue[item := before.queue[item].(status := Done, finished := Some(now))],
         changes := before.changes[station := (if station in before.changes then before.changes[station] else 0) + 1])
  }

  /** What was playing at the station waits again, from its beginning and in its place; the station is idle. */
  ghost predicate WentBack(before: Db, after: Db, station: int) {
    && RowsWentBack(before.queue, after.queue, station, true)
    && RowsWentBack(before.ads, after.ads, station, true)
    && RowsWentBack(before.schedules, after.schedules, station, false)
    && after.current == before.current[station := Current("none", None)] && after.changes == before.changes
    && after.transitions == before.transitions
         + if station in before.current && before.current[station] != Current("none", None)
           then [(station, before.current[station], Current("none", None))] else []
  }

  ghost predicate RowsWentBack(t: Table, u: Table, station: int, clearTimes: bool) {
    && u.Keys == t.Keys
    && forall id :: id in t ==>
         if t[id].station != station || t[id].status != Playing then u[id] == t[id]
         else u[id] == Row(t[id].station, t[id].track, t[id].position, Pending,
                           if clearTimes then None else t[id].started,
                           if clearTimes then None else t[id].finished, t[id].dedupeKey)
  }

  lemma PreserveGoesBack(db: Db, station: int)
    ensures WentBack(db, Preserve(db, station), station)
  {
    assert db.transitions + [] == db.transitions;
  }

  // ---- The station object -------------------------------------------------------------------

  class Playout {
    const station: int
    var db: Db
    /** The uncommitted copy inside BEGIN IMMEDIATE; other connections keep reading `db`. */
    var txn: Option<Db>
    var thread: Scheduler
    var running: bool
    var uri: string
    var commands: seq<Command>
    var generation: nat

    constructor (station: int, db: Db)
      ensures this.station == station
      ensures Snapshot() == State(db, NoLoop, false, "", [], 0) && txn == None
    {
      this.station, this.db, txn, thread := station, db, None, NoLoop;
      running, uri, commands, generation := false, "", [], 0;
    }

    function Snapshot(): State
      reads this
    {
      State(db, thread, running, uri, commands, generation)
    }

    /** Sets the stop flag and waits for the tick in flight; only an exited thread is dropped. */
    method StopScheduler(threadExits: bool)
      modifies this`thread
      ensures thread == if old(thread.Running()) && !threadExits then Loop(true, true) else NoLoop
    {
      if thread.Loop? {
        thread := thread.(stopSet := true);
        if !thread.alive || threadExits {
          thread := NoLoop;
        }
      }
    }

    /** Resume reports success only for a thread seen alive afterwards. */
    method ResumeScheduler(call: StartCall) returns (ok: bool)
      requires thread == NoLoop
      modifies this`thread
      ensures ok == call.Works()
      ensures thread == if call.raises then NoLoop else Loop(call.starts, false)
    {
      if call.raises {
        return false;
      }
      thread := Loop(call.starts, false);
      return thread.Running();
    }

    method StopRuntime(call: StopCall) returns (returned: bool)
      modifies this`running, this`commands
      ensures returned == !call.raises
      ensures running == (old(running) && !call.kills)
      ensures commands == old(commands) + (if old(running) && call.kills then [Kill] else [])
    {
      if running && call.kills {
        running := false;
        commands := commands + [Kill];
      }
      returned := !call.raises;
    }

    /** Plays the interrupted input again, only when it is known. */
    method RestartPriorRuntime(prior: string, call: StartCall) returns (ok: bool)
      modifies this`running, this`commands, this`uri
      ensures ok == (prior != "" && call.Works())
      ensures prior == "" ==> running == old(running) && commands == old(commands) && uri == old(uri)
      ensures prior != "" ==> running == call.starts && commands == old(commands) + [Start(prior)] && uri == prior
    {
      if prior == "" {
        return false;
      }
      commands := commands + [Start(prior)];
      running, uri := call.starts, prior;
      if call.raises {
        return false;
      }
      return running;
    }

    /** Opens the write transaction and validates the operator's view of the queue. */
    method BeginSkip(item: int, expected: Token, raises: bool) returns (ok: bool)
      requires txn == None
      modifies this`txn
      ensures ok == (!raises && expected == Revision(db.queue, station) && IsPlaying(db.queue, station, item))
      ensures txn == if ok then Some(db) else None
    {
      if raises {
        return false;
      }
      txn := Some(db);
      if Revision(txn.value.queue, station) != expected {
        txn := None;
        return false;
      }
      if item !in ActiveIds(txn.value.queue, station) || txn.value.queue[item].status != Playing {
        txn := None;
        return false;
      }
      return true;
    }

    /** Finishes the row and publishes the transaction, or drops it whole. */
    method CommitSkip(item: int, now: int, raises: bool) returns (ok: bool)
      requires txn.Some?
      modifies this`txn, this`db
      ensures txn == None
      ensures ok == (!raises && IsPlaying(old(txn).value.queue, station, item))
      ensures db == if ok then Finish(old(txn).value, station, item, now) else old(db)
    {
      var work := txn.value;
      if raises || !IsPlaying(work.queue, station, item) {
        txn := None;
        return false;
      }
      txn := Some(Finish(work, station, item, now));
      db, txn := txn.value, None;
      return true;
    }

    /** The guarded part of the skip: validate under the write lock, stop the runtime, finish the
        row. The lock is released on every way out. */
    method AttemptSkip(item: int, expected: Token, now: int, calls: SkipCalls)
      returns (failure: Option<Reason>, runtimeStopped: bool)
      requires txn == None && thread == NoLoop
      modifies this`db, this`txn, this`running, this`commands
      ensures txn == None
      ensures failure.None? <==> Prepared(old(running), Selects(old(db), station, item, expected), calls)
                                 && calls.stop.kills && SeesOutcome(calls) && !calls.commitRaises
      ensures failure == FailureOf(old(running), Selects(old(db), station, item, expected), calls)
      ensures runtimeStopped == (Prepared(old(running), Selects(old(db), station, item, expected), calls)
                                 && calls.stop.kills && SeesOutcome(calls))
      ensures failure.None? ==> db == Finish(old(db), station, item, now)
      ensures failure.Some? ==> db == old(db) && failure.value in {QueueChanged, NoRuntimeAudio, RuntimeDidNotStop, PersistenceFailed}
      ensures Prepared(old(running), Selects(old(db), station, item, expected), calls) && calls.stop.kills ==>
                !running && commands == old(commands) + [Kill]
      ensures !(Prepared(old(running), Selects(old(db), station, item, expected), calls) && calls.stop.kills) ==>
                running == old(running) && commands == old(commands)
    {
      if calls.openRaises {
        return Some(PersistenceFailed), false;
      }
      var begun := BeginSkip(item, expected, calls.beginRaises);
      if !begun {
        return Some(if calls.beginRaises then PersistenceFailed else QueueChanged), false;
      }
      if calls.probeRaises || !running {
        txn := None;
        return Some(if calls.probeRaises then PersistenceFailed else NoRuntimeAudio), false;
      }
      var returned := StopRuntime(calls.stop);
      if !returned || calls.reprobeRaises {
        txn := None;
        return Some(PersistenceFailed), false;
      }
      runtimeStopped := !running;
      if !runtimeStopped {
        txn := None;
        return Some(RuntimeDidNotStop), false;
      }
      var committed := CommitSkip(item, now, calls.commitRaises);
      if !committed {
        return Some(if calls.commitRaises then PersistenceFailed else QueueChanged), true;
      }
      return None, true;
    }

    /** After the attempt: a row that is still playing never meets a dead runtime and a live
        scheduler, so the prior input comes back before the scheduler does, or neither does. */
    method SettleSkip(failure: Option<Reason>, runtimeStopped: bool, prior: string, item: int, calls: SkipCalls)
      returns (r: Reply)
      requires thread == NoLoop
      modifies this`thread, this`running, this`commands, this`uri
      ensures var recovers := failure.Some? && runtimeStopped;
              var restarts := recovers && prior != "";
              && commands == old(commands) + (if restarts then [Start(prior)] else [])
              && running == (if restarts then calls.restart.starts else old(running))
              && uri == (if restarts then prior else old(uri))
              && thread == (if (recovers && !(prior != "" && calls.restart.Works())) || calls.resume.raises
                            then NoLoop else Loop(calls.resume.starts, false))
              && r == if recovers && !(prior != "" && calls.restart.Works()) then Refused(RestartFailed)
                      else if thread.Running() then (if failure.Some? then Refused(failure.value) else Skipped(item, generation))
                      else Refused(if failure.Some? then ResumeFailed else ResumeFailedAfterCommit)
    {
      if failure.Some? {
        if runtimeStopped {
          var restarted := RestartPriorRuntime(prior, calls.restart);
          if !restarted {
            return Refused(RestartFailed);
          }
        }
        var resumed := ResumeScheduler(calls.resume);
        if !resumed {
          return Refused(ResumeFailed);
        }
        return Refused(failure.value);
      }
      var resumed := ResumeScheduler(calls.resume);
      if !resumed {
        return Refused(ResumeFailedAfterCommit);
      }
      return Skipped(item, generation);
    }

    /** Everything a skip does once its scheduler has stopped. */
    method SkipStopped(item: int, expected: Token, now: int, calls: SkipCalls)
      returns (r: Reply)
      requires txn == None && thread == NoLoop
      modifies this`db, this`txn, this`thread, this`running, this`uri, this`commands
      ensures txn == None
      ensures Snapshot() == SkipBody(old(Snapshot()), station, item, Selects(old(db), station, item, expected), now, calls)
      ensures r == BodyReply(old(running), old(uri), generation, item, Selects(old(db), station, item, expected), calls)
    {
      var prior := uri;
      var failure, runtimeStopped := AttemptSkip(item, expected, now, calls);
      if !calls.openRaises && calls.closeRaises {
        return Unhandled;
      }
      r := SettleSkip(failure, runtimeStopped, prior, item, calls);
    }

    method OperatorSkipCurrent(item: int, expected: Token, now: int, calls: SkipCalls)
      returns (r: Reply)
      requires txn == None
      modifies this
      ensures txn == None
      ensures Snapshot() == SkipEnd(old(Snapshot()), station, item, Selects(old(db), station, item, expected), now, calls)
      ensures r == SkipReply(old(Snapshot()), item, Selects(old(db), station, item, expected), calls)
      ensures ReplyTells(old(Snapshot()), Snapshot(), station, item, expected, now, calls, r)
      // With the token of a table the operator saw, success means every active row is still as seen.
      ensures forall seen: Table :: r.Skipped? && expected == Revision(seen, station) ==>
                AsSeen(seen, old(db).queue, station)
      ensures r.Skipped? ==> Advanced(old(db), db, station, item, now)
    {
      RepliesTell(Snapshot(), station, item, expected, now, calls);
      SkipEndsExactly(Snapshot(), station, item, expected, now, calls);
      TokenTells(db.queue, station);
      generation := generation + 1;
      if !thread.Running() {
        return Refused(SchedulerNotRunning);
      }
      StopScheduler(calls.threadExits);
      if thread.Running() {
        return Refused(SchedulerDidNotStop);
      }
      if calls.statusRaises {
        return Unhandled;
      }
      r := SkipStopped(item, expected, now, calls);
    }

    /** Requeues what was playing in the three tables, in one transaction, then counts the rows again. */
    method PreserveOperatorPlayout(call: RequeueCall) returns (report: Option<Preservation>)
      requires txn == None
      modifies this`db, this`txn
      ensures txn == None
      ensures db == if call == RaisesBeforeCommit then old(db) else Preserve(old(db), station)
      ensures report.None? <==> call != Requeues
      ensures report.Some? ==>
        report.value == Preservation(true, |ActiveIds(old(db).queue, station)|, |ActiveIds(old(db).queue, station)|,
          |PlayingIds(old(db).queue, station)|, |PlayingIds(old(db).ads, station)|,
          |PlayingIds(old(db).schedules, station)|, CurrentOf(old(db), station))
      ensures call != RaisesBeforeCommit ==> WentBack(old(db), db, station)
    {
      PreserveGoesBack(db, station);
      if call == RaisesBeforeCommit {
        return None;
      }
      var work := db;
      var previous := CurrentOf(work, station);
      var before := |ActiveIds(work.queue, station)|;
      var queueRequeued := |PlayingIds(work.queue, station)|;
      work := work.(queue := Requeue(work.queue, station, true));
      var adsRequeued := |PlayingIds(work.ads, station)|;
      work := work.(ads := Requeue(work.ads, station, true));
      var schedulesRequeued := |PlayingIds(work.schedules, station)|;
      work := work.(schedules := Requeue(work.schedules, station, false));
      txn := Some(SetIdle(work, station));
      db, txn := txn.value, None;
      if call == RaisesAfterCommit {
        return None;
      }
      RequeueKeepsProgram(old(db).queue, station, true);
      var after := |ActiveIds(db.queue, station)|;
      return Some(Preservation(before == after, before, after, queueRequeued, adsRequeued, schedulesRequeued, previous));
    }

    /** An unhandled exception leaves the rows alone or completely requeued: exactly the latter once
        the requeue has committed. */
    method OperatorStop(calls: StopCalls) returns (r: StopReply)
      requires txn == None
      modifies this
      ensures txn == None
      ensures Snapshot() == StopEnd(old(Snapshot()), station, calls)
      ensures r.StopRefused? <==> thread.Running()
      ensures r.StopRefused? ==> db == old(db)
      ensures r.Stopped? ==> r.report.preserved && r.report.after == r.report.before
                             && r.wasRunning == old(running) && db == Preserve(old(db), station)
      ensures r.StopUnhandled? <==>
                !thread.Running() && (calls.statusRaises || calls.stop.raises || calls.requeue != Requeues || calls.reportRaises)
      ensures r.StopUnhandled? ==>
                db == if calls.statusRaises || calls.stop.raises || calls.requeue == RaisesBeforeCommit then old(db)
                      else Preserve(old(db), station)
      ensures r.Stopped? ==> WentBack(old(db), db, station) && r.generation == generation
      ensures generation == old(generation) + 1
      ensures r.StopRefused? <==> old(thread).Loop? && old(thread).alive && !calls.threadExits
      ensures if r.StopRefused? then thread == Loop(true, true) else thread == NoLoop
      // The audio goes off unless the stop was never asked for, or the call left the process running.
      ensures if r.StopRefused? || calls.statusRaises || !old(running) || !calls.stop.kills
              then running == old(running) && commands == old(commands)
              else !running && commands == old(commands) + [Kill]
    {
      PreserveGoesBack(db, station);
      generation := generation + 1;
      StopScheduler(calls.threadExits);
      if thread.Running() {
        return StopRefused;
      }
      if calls.statusRaises {
        return StopUnhandled;
      }
      var wasRunning := running;
      var returned := StopRuntime(calls.stop);
      if !returned {
        return StopUnhandled;
      }
      var report := PreserveOperatorPlayout(calls.requeue);
      if report.None? || calls.reportRaises {
        return StopUnhandled;
      }
      return Stopped(report.value, wasRunning, generation);
    }
  }

  // ---- Properties ---------------------------------------------------------------------------

  lemma RequeueKeepsProgram(t: Table, station: int, clearTimes: bool)
    ensures ActiveIds(Requeue(t, station, clearTimes), station) == ActiveIds(t, station)
  {
    var u := Requeue(t, station, clearTimes);
    forall id ensures id in ActiveIds(u, station) <==> id in ActiveIds(t, station) {
      assert id in u <==> id in t;
    }
  }

  /** The scheduler is back at work on a row whose runtime this very call ended and left dead. */
  predicate Stranded(before: State, after: State, station: int, item: int)
    requires |before.commands| <= |after.commands|
  {
    && after.thread.Running() && IsPlaying(after.db.queue, station, item)
    && Kill in after.commands[|before.commands|..] && !after.running
  }

  /** When a skip strands its row: exactly when the runtime was ended but the stop call, or the
      check after it, raised, and the scheduler came back. */
  lemma SkipStrandsExactlyWhen(s: State, station: int, item: int, expected: Token, now: int, c: SkipCalls)
    ensures var selects := Selects(s.db, station, item, expected);
            var e := SkipEnd(s, station, item, selects, now, c);
            && s.commands <= e.commands
            && (Stranded(s, e, station, item) <==>
                && EntersSkip(s, c) && KillsRuntime(s.running, selects, c) && (c.stop.raises || c.reprobeRaises)
                && ClosesCleanly(c) && c.resume.Works())
  {
    var selects := Selects(s.db, station, item, expected);
    var e := SkipEnd(s, station, item, selects, now, c);
    var added := e.commands[|s.commands|..];
    if EntersSkip(s, c) {
      var killed := KillsRuntime(s.running, selects, c);
      var restarts := MustRecover(s.running, selects, c) && s.uri != "";
      assert added == (if killed then [Kill] else []) + (if restarts then [Start(s.uri)] else []);
      assert Kill in added <==> killed;
    } else {
      assert added == [];
    }
  }

  /** What the operator named is playing, and the token is that of the queue as it is. */
  ghost predicate Named(s: State, station: int, item: int, expected: Token) {
    && expected == Revision(s.db.queue, station)
    && item in s.db.queue && s.db.queue[item].station == station && s.db.queue[item].status == Playing
  }

  /** Every reply exactly in its case, told by what the calls did. */
  lemma RepliesExactly(s: State, station: int, item: int, expected: Token, c: SkipCalls)
    ensures var r := SkipReply(s, item, Selects(s.db, station, item, expected), c);
            var alive := s.thread.Loop? && s.thread.alive;
            var named := Named(s, station, item, expected);
            var enters := alive && c.threadExits && !c.statusRaises && (c.openRaises || !c.closeRaises);
            var opens := !c.openRaises && !c.beginRaises;
            var ended := opens && named && !c.probeRaises && s.running && c.stop.kills;
            var seen := !c.stop.raises && !c.reprobeRaises;
            var lost := ended && seen && c.commitRaises;
            var restarted := s.uri != "" && c.restart == StartCall(true, false);
            var back := enters && (lost ==> restarted) && c.resume == StartCall(true, false);
            var commits := ended && seen && !c.commitRaises;
            && (r == Refused(SchedulerNotRunning) <==> !alive)
            && (r == Refused(SchedulerDidNotStop) <==> alive && !c.threadExits)
            && (r.Unhandled? <==> alive && c.threadExits && !enters)
            && (r == Skipped(item, s.generation + 1) <==> back && commits)
            && (r.Skipped? <==> back && commits)
            && (r == Refused(ResumeFailedAfterCommit) <==> enters && commits && !back)
            && (r == Refused(RestartFailed) <==> enters && lost && !restarted)
            && (r == Refused(ResumeFailed) <==> enters && !commits && (lost ==> restarted) && !back)
            && (r == Refused(QueueChanged) <==> back && opens && !named)
            && (r == Refused(NoRuntimeAudio) <==> back && opens && named && !c.probeRaises && !s.running)
            && (r == Refused(RuntimeDidNotStop) <==>
                  back && opens && named && !c.probeRaises && s.running && seen && !c.stop.kills)
            && (r == Refused(PersistenceFailed) <==>
                  back && (!opens || (named && (c.probeRaises || (s.running && (!seen || lost))))))
  {}

  /** What every skip leaves behind: the rows, the audio and what was asked of it, the scheduler. */
  lemma SkipEndsExactly(s: State, station: int, item: int, expected: Token, now: int, c: SkipCalls)
    ensures var e := SkipEnd(s, station, item, Selects(s.db, station, item, expected), now, c);
            var alive := s.thread.Loop? && s.thread.alive;
            var closes := c.openRaises || !c.closeRaises;
            var ended := alive && c.threadExits && !c.statusRaises && !c.openRaises && !c.beginRaises
                         && Named(s, station, item, expected) && !c.probeRaises && s.running && c.stop.kills;
            var lost := ended && !c.stop.raises && !c.reprobeRaises && c.commitRaises && closes;
            var restarts := lost && s.uri != "";
            var resumes := alive && c.threadExits && !c.statusRaises && closes
                           && (lost ==> restarts && c.restart == StartCall(true, false));
            && (if ended && !c.stop.raises && !c.reprobeRaises && !c.commitRaises
                then Advanced(s.db, e.db, station, item, now) else e.db == s.db)
            && e.commands == s.commands + (if ended then [Kill] else []) + (if restarts then [Start(s.uri)] else [])
            && e.running == (if restarts then c.restart.starts else s.running && !ended)
            && e.uri == s.uri && e.generation == s.generation + 1
            && e.thread == if !alive then s.thread
                           else if !c.threadExits then Loop(true, true)
                           else if resumes && !c.resume.raises then Loop(c.resume.starts, false) else NoLoop
  {
    var e := SkipEnd(s, station, item, Selects(s.db, station, item, expected), now, c);
    assert s.commands + [] + [] == s.commands;
  }

  lemma RepliesTell(s: State, station: int, item: int, expected: Token, now: int, c: SkipCalls)
    ensures var selects := Selects(s.db, station, item, expected);
            ReplyTells(s, SkipEnd(s, station, item, selects, now, c), station, item, expected, now, c,
                       SkipReply(s, item, selects, c))
  {}

  /** Whatever the calls do, a skip never starts a finished row again, the rows change only by finishing
      the playing row, and then the operator is not told of a failure to skip. With a stop call that
      raises only if it ended nothing, and a check that answers, no row is stranded. */
  lemma SkipIsSafe(s: State, station: int, item: int, expected: Token, now: int, c: SkipCalls)
    ensures var selects := Selects(s.db, station, item, expected);
            var e := SkipEnd(s, station, item, selects, now, c);
            var r := SkipReply(s, item, selects, c);
            && s.commands <= e.commands
            && ((c.stop.raises ==> !c.stop.kills) && !c.reprobeRaises ==> !Stranded(s, e, station, item))
            && (e.db != s.db ==> e.commands[|s.commands|..] == [Kill])
            && (e.db != s.db ==> r.Skipped? || r.Unhandled? || r == Refused(ResumeFailedAfterCommit))
            && (r.Skipped? || r == Refused(ResumeFailedAfterCommit) ==> e.db != s.db)
            && (e.db == s.db || IsPlaying(s.db.queue, station, item))
            && (IsPlaying(s.db.queue, station, item) && e.db != s.db ==>
                  && item in e.db.queue && e.db.queue[item].status == Done && e.db.ads == s.db.ads
                  && e.db.queue.Keys == s.db.queue.Keys
                  && forall id :: id in s.db.queue && id != item ==> e.db.queue[id] == s.db.queue[id])
  {
    SkipStrandsExactlyWhen(s, station, item, expected, now, c);
    RepliesExactly(s, station, item, expected, c);
    assert IsPlaying(s.db.queue, station, item) ==> Finish(s.db, station, item, now).queue[item].status == Done;
  }

  /** A stranding skip: everything works, but the stop call raises after it has ended the process. */
  lemma SkipStrands(s: State, station: int, item: int, now: int)
    requires s.thread.Running() && s.running && IsPlaying(s.db.queue, station, item)
    ensures var c := SkipCalls(true, false, false, false, false, StopCall(true, true), false, false, false,
                               StartCall(true, false), StartCall(true, false));
            var e := SkipEnd(s, station, item, true, now, c);
            s.commands <= e.commands && Stranded(s, e, station, item)
            && SkipReply(s, item, true, c) == Refused(PersistenceFailed)
  {
    var c := SkipCalls(true, false, false, false, false, StopCall(true, true), false, false, false,
                       StartCall(true, false), StartCall(true, false));
    SkipStrandsExactlyWhen(s, station, item, Revision(s.db.queue, station), now, c);
  }

  /** Nothing of the station is left playing, and stopping again changes no table. */
  lemma PreserveLeavesNothingPlaying(db: Db, station: int)
    ensures var once := Preserve(db, station);
            && PlayingIds(once.queue, station) == {} && PlayingIds(once.ads, station) == {}
            && PlayingIds(once.schedules, station) == {}
            && Preserve(once, station) == once
  {}

  // ---- Whole runs ---------------------------------------------------------------------------

  datatype Which = Queue | Ads | Schedules

  /** Operator calls, and between them what the scheduler and the runtime do with the rows there are:
      rows marked as they start, end, fail or go back, runtime starts, the current item, a process that
      exits. Rows the scheduler inserts or deletes are not among these steps. */
  datatype Op =
    | Skip(item: int, expected: Token, now: int, calls: SkipCalls)
    | Stop(stops: StopCalls)
    | StartLoop(call: StartCall)
    | Mark(table: Which, row: int, to: Status, at: int)
    | Launch(uri: string, up: bool)
    | RuntimeExits
    | Show(shown: Current)

  /** The scheduler marks only rows of its station that are active, and plays only pending ones. */
  predicate Markable(t: Table, station: int, row: int, to: Status) {
    row in t && t[row].station == station && t[row].Active() && (to == Playing ==> t[row].status == Pending)
  }

  function Marked(t: Table, station: int, row: int, to: Status, at: int, clearTimes: bool): Table {
    if !Markable(t, station, row, to) then t
    else t[row := match to
                  case Playing => t[row].(status := Playing, started := Some(at))
                  case Pending => if clearTimes then t[row].(status := Pending, started := None, finished := None)
                                  else t[row].(status := Pending)
                  case _ => t[row].(status := to, finished := Some(at))]
  }

  function Apply(s: State, station: int, op: Op): State {
    match op
    case Skip(item, expected, now, c) => SkipEnd(s, station, item, Selects(s.db, station, item, expected), now, c)
    case Stop(c) => StopEnd(s, station, c)
    case StartLoop(call) =>
      if s.thread.Running() || call.raises then s else s.(thread := Loop(call.starts, false))
    case Mark(Queue, row, to, at) => s.(db := s.db.(queue := Marked(s.db.queue, station, row, to, at, true)))
    case Mark(Ads, row, to, at) => s.(db := s.db.(ads := Marked(s.db.ads, station, row, to, at, false)))
    case Mark(Schedules, row, to, at) => s.(db := s.db.(schedules := Marked(s.db.schedules, station, row, to, at, false)))
    case Launch(uri, up) => s.(running := up, uri := uri, commands := s.commands + [Start(uri)])
    case RuntimeExits => s.(running := false)
    case Show(shown) => s.(db := SetCurrent(s.db, station, shown))
  }

  function Run(s: State, station: int, ops: seq<Op>): State
    decreases |ops|
  {
    if ops == [] then s else Run(Apply(s, station, ops[0]), station, ops[1..])
  }

  function DoneIds(t: Table, station: int): set<int> {
    set id | id in t && t[id].station == station && t[id].status == Done
  }

  function Changes(db: Db, station: int): nat {
    if station in db.changes then db.changes[station] else 0
  }

  /** The operation is a skip that commits, or a queue row that ends by itself. */
  predicate SkipsNow(s: State, station: int, op: Op) {
    op.Skip? && EntersSkip(s, op.calls) && Commits(s.running, Selects(s.db, station, op.item, op.expected), op.calls)
  }

  predicate EndsNow(s: State, station: int, op: Op) {
    op.Mark? && op.table == Queue && op.to == Done && Markable(s.db.queue, station, op.row, Done)
  }

  function Skips(s: State, station: int, ops: seq<Op>): nat
    decreases |ops|
  {
    if ops == [] then 0
    else (if SkipsNow(s, station, ops[0]) then 1 else 0) + Skips(Apply(s, station, ops[0]), station, ops[1..])
  }

  function Ends(s: State, station: int, ops: seq<Op>): nat
    decreases |ops|
  {
    if ops == [] then 0
    else (if EndsNow(s, station, ops[0]) then 1 else 0) + Ends(Apply(s, station, ops[0]), station, ops[1..])
  }

  /** What every operator call and every run keeps of one table: the same rows in the same places,
      other stations untouched, ended rows never reopened. */
  predicate SameProgram(t: Table, u: Table, station: int) {
    && t.Keys == u.Keys
    && forall id :: id in t ==>
         && u[id].station == t[id].station && u[id].track == t[id].track
         && u[id].position == t[id].position && u[id].dedupeKey == t[id].dedupeKey
         && (t[id].station != station ==> u[id] == t[id])
         && (!t[id].Active() ==> u[id] == t[id])
         && (u[id].Active() ==> t[id].Active())
  }

  /** Over a stretch with this many committed skips and rows that ended by themselves. */
  predicate DbKeeps(before: Db, after: Db, station: int, skips: nat, ends: nat) {
    && SameProgram(before.queue, after.queue, station)
    && SameProgram(before.ads, after.ads, station)
    && SameProgram(before.schedules, after.schedules, station)
    && DoneIds(before.queue, station) <= DoneIds(after.queue, station)
    && |DoneIds(after.queue, station)| == |DoneIds(before.queue, station)| + skips + ends
    && Changes(after, station) == Changes(before, station) + skips
  }

  predicate StepKeeps(s: State, e: State, station: int, skips: nat, ends: nat) {
    DbKeeps(s.db, e.db, station, skips, ends) && s.commands <= e.commands
  }

  lemma FinishKeeps(db: Db, station: int, item: int, now: int)
    requires IsPlaying(db.queue, station, item)
    ensures DbKeeps(db, Finish(db, station, item, now), station, 1, 0)
  {
    assert DoneIds(Finish(db, station, item, now).queue, station) == DoneIds(db.queue, station) + {item};
  }

  lemma RequeueKeepsRows(t: Table, station: int, clearTimes: bool)
    ensures SameProgram(t, Requeue(t, station, clearTimes), station)
    ensures DoneIds(Requeue(t, station, clearTimes), station) == DoneIds(t, station)
  {}

  lemma MarkKeepsRows(t: Table, station: int, row: int, to: Status, at: int, clearTimes: bool)
    ensures var u := Marked(t, station, row, to, at, clearTimes);
            && SameProgram(t, u, station)
            && DoneIds(u, station) == DoneIds(t, station)
                                      + (if to == Done && Markable(t, station, row, Done) then {row} else {})
  {}

  lemma SkipKeeps(s: State, station: int, item: int, expected: Token, now: int, c: SkipCalls)
    ensures var op := Skip(item, expected, now, c);
            StepKeeps(s, Apply(s, station, op), station, if SkipsNow(s, station, op) then 1 else 0, 0)
  {
    SkipStrandsExactlyWhen(s, station, item, expected, now, c);
    if IsPlaying(s.db.queue, station, item) {
      FinishKeeps(s.db, station, item, now);
    }
  }

  lemma PreserveKeeps(db: Db, station: int)
    ensures DbKeeps(db, Preserve(db, station), station, 0, 0)
  {
    RequeueKeepsRows(db.queue, station, true);
    RequeueKeepsRows(db.ads, station, true);
    RequeueKeepsRows(db.schedules, station, false);
  }

  lemma StopKeeps(s: State, station: int, c: StopCalls)
    ensures StepKeeps(s, StopEnd(s, station, c), station, 0, 0)
  {
    PreserveKeeps(s.db, station);
    assert DbKeeps(s.db, s.db, station, 0, 0);
  }

  lemma QueueMarkKeeps(db: Db, station: int, row: int, to: Status, at: int)
    ensures DbKeeps(db, db.(queue := Marked(db.queue, station, row, to, at, true)), station, 0,
                    if to == Done && Markable(db.queue, station, row, Done) then 1 else 0)
  {
    MarkKeepsRows(db.queue, station, row, to, at, true);
    assert Markable(db.queue, station, row, Done) ==> row !in DoneIds(db.queue, station);
  }

  lemma SideMarkKeeps(db: Db, station: int, row: int, to: Status, at: int)
    ensures DbKeeps(db, db.(ads := Marked(db.ads, station, row, to, at, false)), station, 0, 0)
    ensures DbKeeps(db, db.(schedules := Marked(db.schedules, station, row, to, at, false)), station, 0, 0)
  {
    MarkKeepsRows(db.ads, station, row, to, at, false);
    MarkKeepsRows(db.schedules, station, row, to, at, false);
  }

  lemma ApplyKeeps(s: State, station: int, op: Op)
    ensures StepKeeps(s, Apply(s, station, op), station,
                      if SkipsNow(s, station, op) then 1 else 0, if EndsNow(s, station, op) then 1 else 0)
  {
    match op
    case Skip(item, expected, now, c) => SkipKeeps(s, station, item, expected, now, c);
    case Stop(c) => StopKeeps(s, station, c);
    case Mark(_, row, to, at) => QueueMarkKeeps(s.db, station, row, to, at); SideMarkKeeps(s.db, station, row, to, at);
    case _ => assert DbKeeps(s.db, s.db, station, 0, 0);
  }

  /** Over any run of skips, stops and loop starts, of rows that start, end, fail and go back by
      themselves, and of runtime starts and exits, with every call outcome: the program keeps its
      rows, tracks and positions, ended rows stay ended, the change sequence counts exactly the skips
      that committed, and the finished rows are those and the ones that ended by themselves. */
  lemma {:induction false} RunConservesProgram(s: State, station: int, ops: seq<Op>)
    ensures StepKeeps(s, Run(s, station, ops), station, Skips(s, station, ops), Ends(s, station, ops))
    decreases |ops|
  {
    if ops != [] {
      ApplyKeeps(s, station, ops[0]);
      RunConservesProgram(Apply(s, station, ops[0]), station, ops[1..]);
    }
  }

  lemma RunKeepsUniqueKeys(s: State, station: int, ops: seq<Op>)
    requires UniqueActiveKeys(s.db.queue)
    ensures UniqueActiveKeys(Run(s, station, ops).db.queue)
  {
    RunConservesProgram(s, station, ops);
  }
}
