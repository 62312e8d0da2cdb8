# Playout core, verified

This project models the deterministic playout core of the radio automation server and proves what
its protocols keep. SQLite tables are maps from row id to row, settings rows are one record, clocks are
explicit numbers, and every call into a process, a device or another service is an outcome chosen
freely by the caller of the model. Each component is an imperative class or method proved against a
specification of its own (a history, a set of rows, a closed form), and the theorems are about that
specification.

| module | what it models |
|---|---|
| `OperatorPlayout` | the operator's skip and stop: scheduler, audio process and queue transaction, every call fallible |
| `LibrarySync`, `LibrarySyncTheorems`, `LibrarySyncRows` | reconciling a folder with the track table, in one transaction, with queue cleanup: the code, what it keeps, and what becomes of every row |
| `ProgramWorkspace` | claiming, editing, going live: users acting for shows on one station |
| `PlayoutGuard`, `StationWatch` | the supervisor's backend and station timers, specified by the history of events |
| `GuardRun` | its main loop over all stations, joined by the worker-stall restart |
| `GuardLog` | its rotating log |
| `JsonStore` | crash-safe JSON files, file step by file step |
| `QueueDedupe`, `LegacyRbac`, `BackupLedger` | database self-repair: dedupe quarantine, role backfill behind `init_db`, backup retention |
| `SetupCertification` | setup checks and the deployment certificate over whole runs |
| `EnvFile` | the env parser and printer, and secrets over repeated provisioning |
| `OriginProbe` | the listener probe's hysteresis |
| `UniquePath` | the fresh-name loop |
| `QueueTable`, `RowOrder`, `PyText`, `Wrappers` | queue rows, `ORDER BY`, the text primitives of Python, options |

## What the proofs found

The code is modelled as it is. Where a promise of its comments or messages does not hold on all inputs,
a lemma gives the exact condition or the failing run.

- A skip can leave the scheduler running on a row whose process it ended. `stop_station` ends the process
  and then reads the database for a status report; if that read raises, or the check after it does,
  `runtime_stopped` is still false, so the prior input is not restarted but the scheduler is resumed.
  `SkipStrandsExactlyWhen` states exactly when, `SkipStrands` gives such a call.
- An operator stop can answer with an error although it has requeued the rows: it counts them, and reads the
  status for its response, after the requeue has committed (`OperatorStop`).
- Of the ways a queue row is finished only the skip moves the queue change sequence: a row that ends by
  itself does not (`RunConservesProgram`).
- The 300 s before a kill run from the last reset, and the guard's own start of the backend is none. Once it
  has killed a stalled backend it kills the next stalled one from 20 s later on (`StallKillRepeats`).
- A worker-stall restart drops every station's timers, so the distances between requests hold only between
  such restarts (`GuardRun.StationsAreFair`, `GuardRun.RestartBreaksDistance`).
- A JSON write damages a good backup when the target holds valid JSON that is no object
  (`ReadDuringWrite`, `BackupAtRisk`).
- A backup file whose deletion failed is never deleted by a later migration, although the comment says it
  can be retried: its record has left the ledger (`FailedDeletionIsFinal`).
- A library sync removes queue rows of stale tracks, not of the duplicate rows it retires:
  `InactiveStaysQueuedExactly` says, from the table before the sync, which rows are left naming an inactive
  track; `RetiredRowStaysQueued` gives a library.
- Completing setup again while the completed flag is set admits AI settings that no verification has
  seen, and certifies them (`RecompletionIgnoresAiProof`, `UnprovenVoiceCertified`).
- A setup reset writes to the station id it is given, where every other request falls back to the active
  station: a reset that names no station changes nothing (`ResetRevokesExactly`, `CertifiedAfterUnnamedReset`).
- Two overlapping requests probe one listener URL twice within the time to live (`Prober.TwoRequests`).
- An upload name without a suffix gains `.bin` when the name is taken, and only then (`ReserveUniquePath`).

## Model

| member | source | states |
|---|---|---|
| OperatorPlayout.Playout.OperatorSkipCurrent | app/api/runtime.py:305-397 | the skip as one method, for every combination of call outcomes: it succeeds exactly when the row is durably done and the scheduler runs again; with the token of a table the operator saw, success means every active row has the place and the status it had there; every refusal but the one after the commit leaves all rows as they were; after a failed recovery the scheduler stays stopped |
| OperatorPlayout.TokenIsExact | app/repositories/queue_repo.py:258-266 | two concurrency tokens are equal if and only if the two tables have the same active rows at the station, in the same places and with the same statuses |
| OperatorPlayout.SkipEndsExactly | app/api/runtime.py:305-397 | what every skip leaves: the one row finished now and the change sequence one further, or no row different; which commands the audio process got; whether audio and scheduler run |
| OperatorPlayout.RepliesExactly | app/api/runtime.py:305-389 | each of the nine refusals, success and the unhandled exception, each if and only if its own case; the row is finished exactly when the skip commits |
| OperatorPlayout.Playout.AttemptSkip | app/api/runtime.py:318-361 | the guarded part: transaction, process stop, commit, rollback, close |
| OperatorPlayout.Playout.SettleSkip | app/api/runtime.py:363-389 | a failure after the process was ended restarts the prior input before the scheduler, or leaves both stopped |
| OperatorPlayout.Playout.BeginSkip | app/repositories/queue_repo.py:377-402 | a skip transaction opens only for the playing row the operator named, while every active row is in the place and status it had in the table the token was read from |
| OperatorPlayout.Playout.CommitSkip | app/repositories/queue_repo.py:404-420 | the row becomes done and the change sequence moves by one, or nothing changes |
| OperatorPlayout.SkipStrandsExactlyWhen | app/api/runtime.py:318-389 | the scheduler runs on a row whose process this call ended and did not restart if and only if the stop call, or the check after it, raised after the end, and the scheduler came back |
| OperatorPlayout.SkipStrands | app/api/runtime.py:340-379 | a stranding skip, in every state in which the scheduler and the audio run on a playing row: all calls work, but the stop call raises after the end |
| OperatorPlayout.SkipIsSafe | app/api/runtime.py:318-389 | whatever the calls do, a finished row is never started again, the rows change only by finishing the playing one, and then the reply is success, a resume failed after the commit, or an unhandled exception; if a raising stop call ended nothing, no row is ever stranded |
| OperatorPlayout.Playout.OperatorStop | app/api/runtime.py:283-301 | the stop: refused exactly when the scheduler will not stop, and then no row changed; answered, what was playing waits again; the audio goes off exactly if it ran and the stop call, once asked for, ends it; an unhandled exception exactly when a status read, the stop call or the requeue raised, and then the rows are as they were or completely requeued, the latter exactly once the requeue has committed |
| OperatorPlayout.Playout.PreserveOperatorPlayout | app/api/runtime.py:140-199 | three tables requeued in one transaction, with the counts it reports; a raise before the commit leaves all rows, one at the count after it leaves them requeued |
| OperatorPlayout.PreserveGoesBack | app/api/runtime.py:140-180 | row by row: exactly what was playing at the station waits again, in its place, items and ads without their times; the station is idle, with one transition logged unless it was |
| OperatorPlayout.PreserveLeavesNothingPlaying | app/api/runtime.py:140-180 | nothing of the station is left playing in the three tables, and a second stop changes no table |
| OperatorPlayout.RequeueKeepsProgram | app/api/runtime.py:148-180 | requeueing keeps the set of active rows, so `playlist_preserved` is always true |
| OperatorPlayout.RunConservesProgram | app/engine/station_worker.py:567-655 | over any run of skips, stops and loop starts, with rows starting, ending, failing and going back by themselves and the runtime starting and exiting: same rows, tracks, positions and keys, other stations untouched, ended rows never reopened; the change sequence counts exactly the skips that committed, and the finished rows are those and the ones that ended by themselves |
| OperatorPlayout.RunKeepsUniqueKeys | app/db.py:1311-1316 | no such run ever puts two active rows on one dedupe key |
| LibrarySync.ReadFolder | app/api/legacy.py:3959-4028 | the validation phase: refusals, the unplayable files struck off, the candidates |
| LibrarySync.PlanIsExact | app/api/legacy.py:3959-4028 | candidates are distinct and are exactly the listed files not struck off; metadata is there for all of them exactly when every unplayable file was struck off, as it is for files under the folder |
| LibrarySync.GroupRows | app/api/legacy.py:4030-4039 | the grouping loop: for every canonical path its rows, oldest first, blank paths left out |
| LibrarySync.Connection.Upsert | app/api/legacy.py:4052-4111 | one candidate: the oldest row is made the path's active row and its duplicates inactive, or a new row is inserted, with exact counters; what the row then holds is `TargetsCarryFiles` |
| LibrarySync.Connection.PlaceAll | app/api/legacy.py:4050-4111 | the write loop: every candidate placed, all other rows as they were, counters right; or it raises at the first faulty candidate |
| LibrarySync.Connection.RetireStale | app/api/legacy.py:4115-4152 | a replace deactivates exactly the active rows that are no target, and cleans the queues |
| LibrarySync.Connection.Reconcile | app/api/legacy.py:4050-4173 | the transaction: it commits if and only if nothing raised, and any exception before the commit leaves the database as it was |
| LibrarySync.Connection.Sync | app/api/legacy.py:3934-4205 | the endpoint: refused, or raised before the commit, means nothing changed; an exception in the read-back or the last settings write leaves the committed sync; otherwise verified if and only if the active paths match the candidates after the refill; the theorems below say of every row what the sync did to it |
| LibrarySync.Connection.ReindexPendingQueue | app/api/legacy.py:3904-3914 | the renumbering loop gives the pending rows positions 1..n in their old order and touches no other row |
| LibrarySync.RenumberedKeepsOrder | app/api/legacy.py:3904-3914 | renumbering keeps the (position, id) order and the set of pending rows |
| LibrarySyncTheorems.SyncedActive | app/api/legacy.py:4050-4128 | the active rows after a sync, as a set: the targets, and for a merge the rows no candidate claims |
| LibrarySyncTheorems.ReplaceLeavesOneRowPerPath | app/api/legacy.py:4050-4128 | whatever duplicates, inactive and blank-path rows there were, a replace leaves exactly one active row per validated canonical path of the station and kind, and no other active row |
| LibrarySyncTheorems.MergeKeepsOthers | app/api/legacy.py:4050-4111 | a merge gives one active row per candidate path and keeps every row with another path as it was |
| LibrarySyncTheorems.ForeignRowsUntouched | app/api/legacy.py:4030-4128 | rows of other stations and kinds are untouched, and no row disappears |
| LibrarySyncTheorems.SyncConserves | app/api/legacy.py:4041-4131 | added + reactivated + retained is the number of candidates, targets are distinct, and active-after is active-before + added + reactivated − duplicates − stale |
| LibrarySyncTheorems.ReadBackPasses | app/api/legacy.py:4182-4192 | if the refill leaves the tracks alone the read-back check always passes |
| LibrarySyncTheorems.QueuesForgetStale | app/api/legacy.py:4131-4152 | no pending queue row, program item or pending schedule of the station names a stale track; rows not pending are untouched |
| LibrarySyncTheorems.SurvivorsKeepOrder | app/api/legacy.py:3904-3914 | the surviving pending rows keep their order and are numbered 1..n |
| LibrarySyncTheorems.DuplicatesStayQueued | app/api/legacy.py:4087-4135 | a pending row of a track that an older row with its path supersedes stays in the queue, naming an inactive track |
| LibrarySyncTheorems.InactiveStaysQueuedExactly | app/api/legacy.py:4054-4152 | told from the table before the sync: a pending row is left naming an inactive track if and only if an older row with its path supersedes its track, or no candidate claims the track and it was inactive, or stale with the removal off |
| LibrarySyncTheorems.TargetsAreOldest | app/api/legacy.py:4054-4089 | a known row is a target if and only if a candidate claims it and it is the oldest row with its path |
| LibrarySyncTheorems.RetiredRowStaysQueued | app/api/legacy.py:4087-4152 | such a library: two rows of one file, the younger one queued, and a cleaning replace leaves it queued |
| LibrarySyncRows.TargetsCarryFiles | app/api/legacy.py:4052-4111 | the row of each candidate is the oldest with its path, or new; it is active and has the file's title, artist and duration; album and recording id are the stripped new tags, or where those are blank the old ones; genre and language likewise, with the payload's default before the old value; a new row has the defaults alone |
| LibrarySyncRows.OthersOnlyDeactivated | app/api/legacy.py:4087-4128 | every other row keeps all it had and stays active unless the library is replaced or a candidate has its path; no row is lost, only targets are new |
| LibrarySyncRows.StaleExactly | app/api/legacy.py:4115-4128 | the rows taken off are the active ones of the library, in a replace, that no candidate has the path of |
| LibrarySyncRows.CountsExactly | app/api/legacy.py:4041-4129 | added, reactivated, retained, duplicates and deactivated each count exactly their rows, told from the table before the sync |
| LibrarySyncRows.QueueRowsExactly | app/api/legacy.py:4131-4152 | a row of the three queues goes if and only if it is the station's, names a track taken off and, in queue and schedule, is pending; the report counts them |
| LibrarySyncRows.QueuePlacesExactly | app/api/legacy.py:3904-3914 | surviving pending rows change only their place, and only if some track was taken off: then to 1..n in their old order |
| LibrarySyncRows.SettingsExactly | app/api/legacy.py:4154-4169 | the five profile settings, under the names of the kind, and no other setting changes |
| LibrarySyncRows.MatchesExactly | app/api/legacy.py:4182-4192 | the read-back passes if and only if every candidate's path has an active row and, in a replace, no active row has another path |
| LibrarySyncRows.FolderExactly | app/api/legacy.py:3959-4028 | which answer a folder gets, told from its entries: none there, too many, one unplayable that may not be skipped, or a plan with exactly the rest, one per canonical path |
| ProgramWorkspace.StepKeepsOwnership | app/api/legacy.py:968-1200 | each endpoint and worker step keeps the ownership invariant |
| ProgramWorkspace.RunKeepsOwnership | app/api/legacy.py:968-1200 | over any run of claims, releases, queue edits, go-live, break, end and worker steps: at most one active session, its show belongs to the station and is the claimed one, and every item added for a show was added for the claimed show |
| ProgramWorkspace.ClaimChangeClearsQueue | app/api/legacy.py:1106-1200 | a change of claimed show always empties the queue and happens only off air |
| ProgramWorkspace.TakeoverNeedsConsent | app/api/legacy.py:1106-1200 | a workspace in use changes hands only through its claimant, an admin, a member of the claimed show, or a forced claim |
| ProgramWorkspace.PermissionExactly | app/api/legacy.py:968-1104 | the permission check for every queue edit: passed if and only if the caller acts for the claimed show and may, or is an admin naming no show; nobody acts for another show |
| ProgramWorkspace.RefusalsExactly | app/api/legacy.py:968-1104 | which refusal a queue edit gets: 403 exactly without the permission for the show acted for, 409 for another show than the one on air or claimed, 404 and 400 for a show unknown, missing or of another station |
| ProgramWorkspace.ClaimExactly | app/api/legacy.py:1106-1162 | a claim as a whole: a member of the show acted for, with consent, gets it, the queue emptied exactly off air and for another show than before; anyone else changes nothing |
| ProgramWorkspace.EditsExactly | app/api/legacy.py:5594-5680 | what each queue edit does for whoever may, and that it does nothing for others |
| ProgramWorkspace.TickExactly | app/engine/station_worker.py:1895-1994 | one tick of the worker takes the session on air to its next status, by a clip where there is one, and a finished outro gives the queue back to automation |
| ProgramWorkspace.StartupExactly | app/engine/playout_state.py:173-182 | start-up ends every session that has begun, and gives the queue back to automation if there was one at any station |
| ProgramWorkspace.MovedKeepsAll | app/repositories/program_queue_repo.py:63-79 | moving an item keeps the multiset of items and puts it at the clamped place |
| ProgramWorkspace.Workspace.ClaimFor | app/api/legacy.py:1106-1162 | the claim endpoint succeeds if and only if the caller may broadcast or edit the queue of the show acted for, or is an admin, and, off air, consent is not needed or given: no claim, the caller's own or this show's, an idle workspace, an admin, or force; 403 and 409 in exactly the other cases, with all rows unchanged |
| ProgramWorkspace.Workspace.Release | app/api/legacy.py:1164-1200 | the release succeeds if and only if the station is off air and there is no claim, or it is for that show and the caller holds it, may work on it or is an admin; then claim and queue are gone |
| ProgramWorkspace.Workspace.Add | app/api/legacy.py:5571-5590 | an item gets in if and only if the caller acts for the claimed show with the permission or as an admin, or is an admin naming no show; it goes to the end, marked with that show, and the queue stays owned |
| ProgramWorkspace.Workspace.Move | app/api/legacy.py:5594-5615 | moving in the queue: succeeds exactly for someone who may edit it and an index in it; the item goes to the asked place or the nearest there is, the others keep their order |
| ProgramWorkspace.Workspace.StartLive | app/api/shows.py:541-589 | go-live succeeds if and only if the caller may broadcast, the show exists, the station is off air, the workspace is that show's and holds enough tracks; then a session of that show and user begins and the host queue plays |
| ProgramWorkspace.Workspace.Cue | app/api/shows.py:592-653 | a break is for the live show and an end for one that has begun, by someone who may; the session goes to its closing clip before the break or before the end, and refusals change nothing |
| PlayoutGuard.RunIsTimingSafe | tools/legacy_playout_guard.py:530-584 | over any run of the main loop: each start the guard decides on comes 20 s or more after any start, 120 s or more after one no healthy probe followed unless it answers a stall, and it kills only after 300 s of probes all bad since the last reset |
| PlayoutGuard.StartsExactly | tools/legacy_playout_guard.py:538-559 | a bad probe is answered with a start, and with a kill when stalled, if and only if that start keeps the three rules and the clock has reached 20 s |
| PlayoutGuard.CycleExactly | tools/legacy_playout_guard.py:707-745 | one pass, as a whole: nothing if publishing raises, a start on a reload, the answer above to a bad probe, and behind a good one a restart exactly when some turn asks for it |
| PlayoutGuard.StallKillRepeats | tools/legacy_playout_guard.py:547-559 | after a kill of a stalled backend, a backend still stalled is killed again if and only if 20 s have passed |
| PlayoutGuard.Guard.EnsureBackend | tools/legacy_playout_guard.py:530-560 | the timestamp code answers every probe as `StartsExactly` says, over the history |
| PlayoutGuard.Guard.RunCycle | tools/legacy_playout_guard.py:707-751 | the loop body with its reset points does what `CycleExactly` says, over the history |
| StationWatch.RunIsFair | tools/legacy_playout_guard.py:587-690 | over any run of turns of one station state: loop starts 10 s apart, ticks 5 s apart and only after 6 s of a runtime judged bad without a break, fallbacks 30 s apart and only after 20 s of it |
| StationWatch.TurnExactly | tools/legacy_playout_guard.py:587-690 | one turn, as a whole: the loop is started, the worker ticked and the fallback sent if and only if the loop is down, the runtime long enough bad by the outputs it requires, no request of the kind is nearer than 10, 5 or 30 s, and nothing before it raised; a restart is asked for exactly when the loop has stalled |
| StationWatch.Watch.Supervise | tools/legacy_playout_guard.py:645-690 | one turn of the timestamp code, with every request allowed to raise, does what `TurnExactly` says |
| GuardRun.StationsAreFair | tools/legacy_playout_guard.py:693-751 | over any run of the main loop, for every station: two requests of a kind keep that distance unless the station state was lost between them, and the grace periods hold since the last loss |
| GuardRun.EveryStationTurned | tools/legacy_playout_guard.py:716-750 | in one pass every station up to the first that asks for a restart gets its turn, on its own history, and no station after it does |
| GuardRun.RunIsExact | tools/legacy_playout_guard.py:707-748 | each pass of any run: the reload, the answer to the probe and, behind a good one, the turn of every station in order; with a restart every station's state is lost, and nothing else happens to any station |
| GuardRun.LossesFollowRestarts | tools/legacy_playout_guard.py:718-745 | every loss of a station state is a worker-stall restart of the backend at that time |
| GuardRun.RestartResetsTimers | tools/legacy_playout_guard.py:725-733 | after such a restart a request is due as if it had never been sent |
| GuardRun.RestartBreaksDistance | tools/legacy_playout_guard.py:716-745 | a run of two passes that starts one station's loop twice at any distance, a worker-stall restart between them |
| GuardRun.BackendIsTimingSafe | tools/legacy_playout_guard.py:693-751 | the backend timing holds with the restarts decided by the stations' own turns |
| GuardRun.GuardLoop.RunPass | tools/legacy_playout_guard.py:707-748 | one pass of the loop over the dictionary of station states does what `RunIsExact` says, over the histories |
| GuardRun.GuardLoop.VisitAll | tools/legacy_playout_guard.py:716-750 | the station loop: with distinct ids, every look that no earlier one cuts off becomes a turn on that station's history |
| GuardLog.Log.Write | tools/legacy_playout_guard.py:73-92 | the log is always a suffix of everything logged, whatever file operation raises; it says file by file what a call leaves, rotation at 10 MiB included, and that the record is in exactly unless an operation the call comes to raised; without faults backups have no gaps and text is lost only behind five full backups |
| GuardLog.Log.MoveBackups | tools/legacy_playout_guard.py:83-87 | the renaming loop shifts every backup by one, or stops part-way without losing text |
| GuardLog.RotationText | tools/legacy_playout_guard.py:77-88 | a rotation drops exactly the oldest backup from the readable text |
| GuardLog.RotationKeeps | tools/legacy_playout_guard.py:77-88 | a completed rotation leaves no gap and fills all five backups once the fifth existed |
| GuardLog.AppendKeeps | tools/legacy_playout_guard.py:89-90 | appending keeps suffix, size bound and gaps |
| GuardLog.RetainedSize | tools/legacy_playout_guard.py:77-88 | n backups hold at least n times the size limit |
| GuardLog.TotalBound | tools/legacy_playout_guard.py:77-90 | n backups and the current file hold at most n + 1 times the limit and one record |
| JsonStore.ReadDuringWrite | app/reliability.py:50-109 | for every pair of moments at which a reader opens target and backup, it reads the old value or the new one, if and only if the target is not non-object JSON beside a good backup |
| JsonStore.WriteIsAtomic | app/reliability.py:50-89 | stopped dead or by an exception after any step, a write leaves the old or the new value readable, a good backup good, and foreign temporaries alone |
| JsonStore.StageExactly | app/reliability.py:50-89 | the directory after every step, file by file: the target changes with the last step alone, the backup only where one is kept and the target parses, to the old target, and no foreign file at all |
| JsonStore.EndedWriteLeaves | app/reliability.py:50-89 | a write ended by itself or an exception: target and backup by how far it came, every other name as before, its temporaries gone |
| JsonStore.TornWriteExactly | app/reliability.py:50-89 | damage to the target during a write changes nothing else it leaves, and stays exactly if it did not come too late and no last step mended it |
| JsonStore.TornReadDuringWrite | app/reliability.py:50-109 | with the target torn at any moment of a write, a read gives the old value, the one readable without the target, or the new one, if and only if the backup is not at risk |
| JsonStore.FinishedWriteIsRead | app/reliability.py:50-109 | a finished write is read back and leaves no temporary |
| JsonStore.LastWriteIsRead | app/reliability.py:50-109 | after any run of stopped writes, damage and loss, a write that finishes is what is read next |
| JsonStore.RunNeverReadsEmpty | app/reliability.py:50-109 | once the backup holds an object it always does: no run of stopped writes, with damage between and during them and loss of the target, makes a read fall back to the empty dict |
| JsonStore.RunReadsOnlyKnown | app/reliability.py:50-109 | a read returns only a value the run wrote or the directory held |
| JsonStore.Store.AtomicWrite | app/reliability.py:50-89 | the write method, for every fate, agrees with the step table |
| JsonStore.Store.ReadJsonObject | app/reliability.py:92-109 | the fallback loop computes the specified read |
| QueueDedupe.OrdinalOneIsKeeper | app/db.py:411-424 | `ROW_NUMBER` 1 is the playing row of lowest id, else the lowest id |
| QueueDedupe.RepairMakesKeysUnique | app/db.py:1311-1316 | after the repair the partial unique index can be created |
| QueueDedupe.RepairKeepsTheRightRow | app/db.py:411-424 | each contested key keeps exactly its keeper, all rivals are failed, nothing else changes |
| QueueDedupe.RepairExactly | app/db.py:411-424 | row by row: a row is failed, and finished now unless it was before, if and only if another active row with its key is playing instead of pending or has a lower id |
| QueueDedupe.RepairIsIdempotent | app/db.py:411-424 | a table that satisfies the index is left alone |
| LegacyRbac.Store.Sync | app/db.py:300-385 | from any contents: only assignments needing a permission that does not exist are left to sync; no user grant is removed, no other template touched, nothing granted that is not due |
| LegacyRbac.Store.SeedTemplate | app/db.py:309-336 | one template is created or corrected, others keep theirs |
| LegacyRbac.SeedKeeps | app/db.py:309-336 | seeding one template settles it and unsettles none |
| LegacyRbac.SyncLeaves | app/db.py:288-385 | what a sync leaves to do is exactly the unsettlable assignments |
| LegacyRbac.NeedsSyncExactly | app/db.py:198-298 | the check asks for a sync if and only if the mark, a built-in template, a user's role template or a permission of a legacy show role is missing |
| LegacyRbac.SyncRepairs | app/db.py:300-385 | settled tables hold every template as built in, the template of every user's role, and of each legacy show role the permissions that exist |
| LegacyRbac.LegacyRolesSettle | app/db.py:364-385 | the built-in show roles ask for existing permissions only, so nothing is unsettlable |
| LegacyRbac.SettledHasNoneLeft | app/db.py:261-298 | tables that need no sync hold no unsettlable assignment |
| LegacyRbac.Store.InitDb | app/db.py:1634-1673 | a quiet database is not written at all; otherwise one backup, one bootstrap and its three commits, and the tables hold every role that is due and grant nothing that is not |
| LegacyRbac.Store.InitTwice | app/db.py:1634-1673 | whatever the tables held, a second `init_db` writes nothing and backs up nothing |
| BackupLedger.RetainedIsNewest | app/db.py:978-990 | the ledger keeps the newest min(n, retention) records of the database |
| BackupLedger.LastBackupExactly | app/db.py:963-991 | over any run: after a backup the ledger holds of its database the newest records, its own last, as many as the setting clamped to 1..64 says, and all others in order; if its write fails, the old ledger |
| BackupLedger.LastBackupFiles | app/db.py:963-1001 | and the files there were and its own, but for those of the dropped records whose deletion works |
| BackupLedger.OthersStay | app/db.py:986-990 | records of other databases stay, in order |
| BackupLedger.NewRecordStays | app/db.py:963-990 | the new record is among those kept |
| BackupLedger.SplitApart | app/db.py:978-990 | with unique paths no kept record shares its file with a dropped one |
| BackupLedger.RunKeepsFiles | app/db.py:963-1001 | over any run of backups of any databases, with any retention and failures, every record on the ledger has its file |
| BackupLedger.OrphansStay | app/db.py:993-1001 | a file that no record names is never deleted |
| BackupLedger.DroppedFileStaysExactly | app/db.py:978-1001 | a dropped record is off the ledger, and its file is left if and only if its deletion fails |
| BackupLedger.FailedDeletionIsFinal | app/db.py:963-1001 | over any later run the file of a dropped record is there if and only if that one deletion failed |
| BackupLedger.Ledger.RecordSchemaBackup | app/db.py:963-1001 | the slicing and filtering code computes the specified ledger and deletions |
| BackupLedger.Retention | app/db.py:899-907 | the retention is the setting, held within 1 and 64, and 8 where it is no number |
| SetupCertification.CompletedExactly | app/api/setup.py:910-925 | over any run of configure, test, verify, complete, reset and outside changes: setup shows as completed if and only if every required check is ready and the last thing to touch the certificate was a completion with the signature in force now; `CompletedForTheseFields` says so field by field |
| SetupCertification.StreamReadyExactly | app/api/setup.py:722-743 | the stream check is ready if and only if the destination answers and the last stream test, with no configuration or reset since, passed for the stream signature in force now; `ReadyStreamWasTested` says so field by field |
| SetupCertification.LocalReadyExactly | app/api/setup.py:714-720 | the same for the local output |
| SetupCertification.CertifiedStreamWasTested | app/api/setup.py:1141-1245 | a completed station with Icecast on passed its last stream test with the signature in the certificate, before that was issued; `SignaturesExactly` says which fields these are |
| SetupCertification.SignaturesExactly | app/api/setup.py:632-697 | two local, stream, AI or deployment signatures are equal if and only if the fields they cover are, each named: host, port, mount, user, password, codec, bitrate and switch of the stream, and so on |
| SetupCertification.CompletedForTheseFields | app/api/setup.py:910-925 | over any run: completed if and only if every required check is ready and some completion was admitted for the very name, outputs and AI settings in force now, with nothing since that takes a certificate back |
| SetupCertification.ReadyStreamWasTested | app/api/setup.py:722-743 | over any run: the stream check is ready if and only if the stream is configured, reachable, and the last test since any configuration or reset passed for all eight stream fields as they are now |
| SetupCertification.ReadyLocalWasVerified | app/api/setup.py:714-720 | the same for the local output and its device |
| SetupCertification.StoredVoiceWasVerified | app/api/setup.py:768-777 | the AI mark stands if and only if the last AI verification, with no test, configuration or reset since, was for the AI settings as they are now |
| SetupCertification.AiTestIsTheLast | app/api/setup.py:1090-1119 | over any run: an AI test counts as passed if and only if the last one, with no configuration or reset since, passed |
| SetupCertification.FieldsExactly | app/api/setup.py:974-1045 | which request changes which field in force: a configuration and other pages alone |
| SetupCertification.ChecksExactly | app/api/setup.py:621-629 | setup can be completed if and only if each check that the outputs and the AI switch call for passes, each told by its own condition |
| SetupCertification.HeldMeansStands | app/api/setup.py:510-511 | a mark is held for a signature if and only if some request set it to that and none touched it since |
| SetupCertification.FirstIssueProvesAi | app/api/setup.py:763-777 | when the standing chain of certificates was first issued, the AI voice was live or verified for the settings of that moment |
| SetupCertification.RecompletionIgnoresAiProof | app/api/setup.py:768-777 | while the completed flag is set, unverified AI settings are certified if and only if the other required checks are ready, the AI runtime is, and some AI test passed |
| SetupCertification.UnprovenVoiceCertified | app/api/setup.py:1207-1245 | a concrete run that verifies one voice and certifies another |
| SetupCertification.CompletionHolds | app/api/setup.py:1207-1245 | an admitted completion shows as completed in its own answer |
| SetupCertification.ResetRevokesExactly | app/api/setup.py:1249-1271 | a reset takes the certificate back if and only if it names the station; with an id of no station it changes nothing where every other request resolves to the active station |
| SetupCertification.CertifiedAfterUnnamedReset | app/api/setup.py:1249-1275 | a run that certifies a station and resets with id 0 ends completed |
| SetupCertification.IsReady | app/api/setup.py:904-911 | the readiness loop over the ten checks |
| SetupCertification.Setup.PersistConfig | app/api/setup.py:974-1045 | configuring resets the marks and refuses a station without output |
| SetupCertification.Setup.RecordAiTest | app/api/setup.py:1090-1119 | an AI test, passed or not, takes back the AI mark and the certificate: setup no longer shows as completed, and only a live voice passes the AI check until it is verified again |
| SetupCertification.Setup.VerifyCheck | app/api/setup.py:1122-1201 | verification: refused as unknown for all but three checks; done exactly when the output is on, the stream test passes or the AI runtime is tested; what it stores is the signature of the fields as `SignaturesExactly` names them, and a failed stream test takes mark and certificate back |
| SetupCertification.Setup.CompleteSetup | app/api/setup.py:1207-1245 | completion succeeds if and only if every required check passes, told condition by condition, and then setup shows as completed for the fields in force |
| SetupCertification.Setup.ResetSetup | app/api/setup.py:1249-1271 | a reset clears every mark of the station it names and changes nothing otherwise |
| EnvFile.RoundTripExactly | tools/provision_rtmd_integrations.py:110-130 | parsing undoes printing if and only if keys are unique and good and values are stripped single lines |
| EnvFile.ParseRenderParse | tools/provision_rtmd_integrations.py:110-130 | for every text, parsing, printing and parsing again changes nothing |
| EnvFile.ParseIsWellFormed | tools/provision_rtmd_integrations.py:110-120 | whatever the text, what is parsed from it is well formed |
| EnvFile.ParseEnv | tools/provision_rtmd_integrations.py:110-120 | the dict-filling loop computes the specified parse |
| EnvFile.LineReadsBack | tools/provision_rtmd_integrations.py:110-130 | a printed entry reads back as itself |
| EnvFile.LineExactly | tools/provision_rtmd_integrations.py:110-120 | what a line yields: a pair exactly when it is no comment and has an equals sign after a good key, cut at the first one and stripped |
| EnvFile.ProvisionReadsBack | tools/provision_rtmd_integrations.py:358-389 | what a provisioning run writes reads back as what it built, each secret kept or fresh |
| EnvFile.ValuesExactly | tools/provision_rtmd_integrations.py:158-162 | under each key of an entry a run's file holds its fixed value, or the stored secret, or the fresh one exactly if the stored one is blank or contains the placeholder in any case; all other keys are as in the example |
| EnvFile.LastRunExactly | tools/provision_rtmd_integrations.py:358-448 | the same of the last of any runs, over the file the earlier ones left |
| EnvFile.SecretsSurvive | tools/provision_rtmd_integrations.py:158-162 | provisioning again, any number of times and with any fresh secrets, never changes a stored non-empty secret without the placeholder |
| EnvFile.FirstRunSettles | tools/provision_rtmd_integrations.py:414-448 | from any file or none, the first run fixes the secrets of all later runs |
| EnvFile.BackendFile.Rewrite | tools/provision_rtmd_integrations.py:358-389 | the rewriting code computes the specified file |
| OriginProbe.ConfirmedExactly | app/api/public.py:112-147 | after any interleaving of finished probes, a key is confirmed if and only if its answers hold two successes in a row with no two failures in a row after them |
| OriginProbe.OneAnswerDoesNotFlip | app/api/public.py:124-141 | a settled verdict needs two answers to change |
| OriginProbe.Prober.Cached | app/api/public.py:114-117 | a verdict is served from the cache exactly when the last answer recorded for the key was asked for less than 5 s before |
| OriginProbe.Prober.Finish | app/api/public.py:124-147 | recording an answer gives the specified verdict and leaves other keys alone |
| OriginProbe.Prober.ProbeOrigin | app/api/public.py:95-147 | a request that no other overlaps: no verdict without a listener URL, a probe exactly when the last answer is 5 s old or there is none |
| OriginProbe.SerialProbesSpaced | app/api/public.py:112-117 | requests that do not overlap probe one key at least 5 s apart |
| OriginProbe.ServedExactly | app/api/public.py:112-123 | over any requests that do not overlap: the next one adds a probe if and only if the last answer for its key is 5 s old or there is none |
| OriginProbe.OverlapProbesTwice | app/api/public.py:113-117 | within the time to live of an unserved request the cache serves a second one exactly from the moment the first has recorded its answer |
| OriginProbe.Prober.TwoRequests | app/api/public.py:113-147 | two requests over the two locked sections: within the time to live the second probes if and only if it asks before the first has recorded its answer |
| UniquePath.ReserveUniquePath | app/file_security.py:69-78 | the loop ends within one try more than there are names, with the first numbered name that is free; its suffix differs from the given one if and only if the name has none and is taken |
| UniquePath.FailuresBounded | app/file_security.py:69-78 | the pigeonhole: no more tries fail than names are taken |
| UniquePath.CandidatesDiffer | app/file_security.py:76-77 | no name is tried twice |
| UniquePath.SuffixExactly | app/file_security.py:72-73 | a name is cut into stem and suffix at its last dot, unless that is its first or last character |
| UniquePath.SuffixLostExactly | app/file_security.py:72-76 | of the names tried, the suffix differs exactly for the numbered ones of a name without one |
| PyText.DecimalInjective | app/file_security.py:76 | different counters print differently |

## Left out

- Routing, payload parsing, authentication and websockets: plumbing around the steps modelled here.
- FFmpeg, probes, subprocesses, the network and the audio runtime: each is one freely chosen outcome. A stream test that passes because a live encoder already feeds the destination counts as passed.
- A process that dies by itself during a skip or stop (between them it may), and the asynchronous end of a stopped one: the check sees what the stop call did.
- The concurrency token of a skip is a map of active rows instead of its SHA-256, and signatures stand for the fields they cover.
- The sync visits candidates in listing order; the source sorts them by canonical path, which only decides the ids of new rows.
- The sync's checks of mode, station and folder, its report texts, and the refill of the queue beyond the database it leaves.
- Creating, editing and deleting shows, assigning users, and show audio: the show table and the grants are given.
- The guard's health-log lines and `loop_bad_since`, which only decide what is logged; recovery of content from the fallback, which reads the database directly.
- A log record written in part: an append adds a whole record or nothing.
- `fsync` and power loss below the file step, and the lock that serialises writers of one JSON file.
- Column migrations and the filling of missing columns around the dedupe step.
- The administrator `init_db` may add is given; passwords and the default station are not part of this model.
- The ledger file itself: a write of it succeeds or fails as a whole.
- SetupCertification.Setup.PersistConfig: takes output fields already normalised, because URL and profile parsing decide nothing the certificate depends on.
- SetupCertification.Setup.VerifyCheck: one request is one step, so an output change between its two reads, or a stop between its two writes, is not modelled.
- EnvFile.SecretsSurvive: requires fixed values the format can hold and fresh secrets without the placeholder, because a line break in a value would add lines of its own.
- OriginProbe.Prober.ProbeOrigin: lower-cases ASCII letters of the URL only; overlapping requests are the two locked sections `Cached` and `Finish` in any order.
- UniquePath.ReserveUniquePath: takes the last path component, and a directory no other writer changes meanwhile.
- `sanitize_upload_filename`, the byte limit of uploads and `_public_status_summary`: shallow branches.
