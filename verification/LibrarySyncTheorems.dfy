/** What a committed library sync means for the station (app/api/legacy.py): the theorems over
    `LibrarySync.Synced`, the contract of the write transaction. */
module LibrarySyncTheorems {
  import opened LibrarySync
  import opened PyText
  import opened QueueTable
  import opened RowOrder
  import opened Wrappers

  /** Target i carries candidate i's path and is an active row in scope. */
  predicate HoldsPaths(p: Payload, ts: Tracks, cands: seq<Candidate>, targets: seq<int>) {
    && |targets| == |cands|
    && forall i :: 0 <= i < |targets| ==>
         targets[i] in ActiveScope(ts, p) && ts[targets[i]].path == cands[i].path
  }

  lemma PlacedHolds(host: Host, p: Payload, before: Tracks, ts: Tracks, cands: seq<Candidate>, targets: seq<int>)
    requires |targets| == |cands| && AllPlaced(host, p, before, ts, cands, targets)
    ensures HoldsPaths(p, ts, cands, targets)
  {}

  lemma DeactivateScope(p: Payload, ts: Tracks, ids: set<int>)
    ensures ActiveScope(Deactivate(ts, ids), p) == ActiveScope(ts, p) - ids
  {}

  /** The active rows after a sync: a replace leaves exactly the targets; a merge also keeps what was
      active and shares no candidate's path. */
  lemma SyncedActive(host: Host, p: Payload, before: Library, placed: Tracks, after: Library,
                     cands: seq<Candidate>, targets: seq<int>, rep: Report)
    requires Synced(host, p, before, placed, after, cands, targets, rep)
    ensures ActiveScope(after.tracks, p) ==
              if p.replace then Elements(targets)
              else Elements(targets)
                   + (ActiveScope(before.tracks, p) - ClaimedIds(host, p, before.tracks, KeysUpTo(host, cands, |cands|)))
    ensures HoldsPaths(p, after.tracks, cands, targets)
  {
    ActiveAfter(host, p, before.tracks, placed, cands, targets);
    DeactivateScope(p, placed, Stale(p, placed, targets));
    PlacedHolds(host, p, before.tracks, placed, cands, targets);
    StillHolds(p, placed, Stale(p, placed, targets), cands, targets);
    TargetsOnly(ActiveScope(placed, p), Elements(targets));
  }

  lemma StillHolds(p: Payload, ts: Tracks, stale: set<int>, cands: seq<Candidate>, targets: seq<int>)
    requires HoldsPaths(p, ts, cands, targets) && stale !! Elements(targets)
    ensures HoldsPaths(p, Deactivate(ts, stale), cands, targets)
  {}

  lemma TargetsOnly(active: set<int>, targets: set<int>)
    requires targets <= active
    ensures active - (active - targets) == targets && active - {} == active
  {}

  /** The active rows in scope whose stored path has this canonical form. */
  function ActiveWithPath(host: Host, p: Payload, ts: Tracks, key: string): set<int> {
    set id | id in ActiveScope(ts, p) && host.canon(ts[id].path) == key
  }

  /** Whatever duplicates, inactive or blank-path rows there were: after a replace every validated
      path has exactly one active row of the station and kind, and no other row is active. */
  lemma ReplaceLeavesOneRowPerPath(host: Host, p: Payload, before: Library, placed: Tracks, after: Library,
                                   cands: seq<Candidate>, targets: seq<int>, rep: Report)
    requires Synced(host, p, before, placed, after, cands, targets, rep) && p.replace && DistinctKeys(host, cands)
    ensures |targets| == |cands|
    ensures forall i :: 0 <= i < |cands| ==>
              ActiveWithPath(host, p, after.tracks, host.canon(cands[i].path)) == {targets[i]}
    ensures ActivePathsExactly(host, p, after.tracks, cands)
  {
    SyncedActive(host, p, before, placed, after, cands, targets, rep);
    OneRowPerPath(host, p, after.tracks, cands, targets);
  }

  /** Every active row in scope sits at some candidate's path. */
  predicate ActivePathsExactly(host: Host, p: Payload, ts: Tracks, cands: seq<Candidate>) {
    forall id :: id in ActiveScope(ts, p) ==> host.canon(ts[id].path) in KeysUpTo(host, cands, |cands|)
  }

  lemma OneRowPerPath(host: Host, p: Payload, ts: Tracks, cands: seq<Candidate>, targets: seq<int>)
    requires HoldsPaths(p, ts, cands, targets) && DistinctKeys(host, cands)
    requires ActiveScope(ts, p) == Elements(targets)
    ensures forall i :: 0 <= i < |cands| ==> ActiveWithPath(host, p, ts, host.canon(cands[i].path)) == {targets[i]}
    ensures ActivePathsExactly(host, p, ts, cands)
  {}

  /** A merge: one active row per candidate path among the rows the sync groups by path, and every
      row with another path is kept as it was. */
  lemma MergeKeepsOthers(host: Host, p: Payload, before: Library, placed: Tracks, after: Library,
                         cands: seq<Candidate>, targets: seq<int>, rep: Report)
    requires Synced(host, p, before, placed, after, cands, targets, rep) && !p.replace
    requires DistinctKeys(host, cands) && CleanPaths(cands)
    ensures |targets| == |cands|
    ensures forall i :: 0 <= i < |cands| ==>
              ActiveScope(after.tracks, p) * Group(host, p, after.tracks, host.canon(cands[i].path)) == {targets[i]}
    ensures forall id :: id in before.tracks && !Claimed(host, p, before.tracks[id], KeysUpTo(host, cands, |cands|)) ==>
              id in after.tracks && after.tracks[id] == before.tracks[id]
  {
    SyncedActive(host, p, before, placed, after, cands, targets, rep);
    UnclaimedKept(host, p, before, placed, after, cands, targets, rep);
    forall i | 0 <= i < |cands|
      ensures ActiveScope(after.tracks, p) * Group(host, p, after.tracks, host.canon(cands[i].path)) == {targets[i]}
    {
      MergedGroup(host, p, before.tracks, after.tracks, cands, targets, i);
    }
  }

  lemma UnclaimedKept(host: Host, p: Payload, before: Library, placed: Tracks, after: Library,
                      cands: seq<Candidate>, targets: seq<int>, rep: Report)
    requires Synced(host, p, before, placed, after, cands, targets, rep)
    ensures forall id :: id in before.tracks ==> id in after.tracks
    ensures forall id :: id in before.tracks && !Claimed(host, p, before.tracks[id], KeysUpTo(host, cands, |cands|)) ==>
              id !in targets && id in placed && placed[id] == before.tracks[id]
              && (id !in Stale(p, placed, targets) ==> after.tracks[id] == before.tracks[id])
  {}

  lemma MergedGroup(host: Host, p: Payload, before: Tracks, ts: Tracks, cands: seq<Candidate>, targets: seq<int>, i: nat)
    requires HoldsPaths(p, ts, cands, targets) && DistinctKeys(host, cands) && CleanPaths(cands) && i < |cands|
    requires ActiveScope(ts, p) == Elements(targets)
               + (ActiveScope(before, p) - ClaimedIds(host, p, before, KeysUpTo(host, cands, |cands|)))
    requires forall id :: id in before && !Claimed(host, p, before[id], KeysUpTo(host, cands, |cands|)) ==>
               id in ts && ts[id] == before[id]
    ensures ActiveScope(ts, p) * Group(host, p, ts, host.canon(cands[i].path)) == {targets[i]}
  {
    var keys := KeysUpTo(host, cands, |cands|);
    var group := Group(host, p, ts, host.canon(cands[i].path));
    forall j | 0 <= j < |cands|
      ensures Matchable(ts[targets[j]], p) && RowKey(host, ts[targets[j]]) == host.canon(cands[j].path)
    {
      assert targets[j] in ActiveScope(ts, p) && cands[j] in cands;
      StripShape(cands[j].path);
    }
    forall id | id in ActiveScope(ts, p) && id != targets[i] ensures id !in group {
      if id in targets {
        var j :| 0 <= j < |targets| && targets[j] == id;
        assert host.canon(cands[j].path) != host.canon(cands[i].path);
      } else {
        assert id in ActiveScope(before, p) && !Claimed(host, p, before[id], keys);
        assert host.canon(cands[i].path) in keys;
      }
    }
  }

  /** Rows of other stations and other kinds are untouched, and no row disappears. */
  lemma ForeignRowsUntouched(host: Host, p: Payload, before: Library, placed: Tracks, after: Library,
                             cands: seq<Candidate>, targets: seq<int>, rep: Report)
    requires Synced(host, p, before, placed, after, cands, targets, rep)
    ensures forall id :: id in before.tracks ==> id in after.tracks
    ensures forall id :: id in before.tracks && !InScope(before.tracks[id], p) ==> after.tracks[id] == before.tracks[id]
  {}

  /** Conservation: every candidate is counted once, no row twice, and the active total moves by
      exactly what the report says. */
  lemma SyncConserves(host: Host, p: Payload, before: Library, placed: Tracks, after: Library,
                      cands: seq<Candidate>, targets: seq<int>, rep: Report)
    requires Synced(host, p, before, placed, after, cands, targets, rep)
    ensures rep.counts.added + rep.counts.reactivated + rep.counts.retained == |cands| && Distinct(targets)
    ensures |ActiveScope(after.tracks, p)| == |ActiveScope(before.tracks, p)| + rep.counts.added
              + rep.counts.reactivated - rep.counts.duplicates - rep.deactivated
  {
    var keys := KeysUpTo(host, cands, |cands|);
    var claimed, was := ClaimedIds(host, p, before.tracks, keys), ActiveScope(before.tracks, p);
    ActiveAfter(host, p, before.tracks, placed, cands, targets);
    ClaimedActive(host, p, before.tracks, keys);
    DistinctCount(targets);
    TargetsClaimed(targets, before.tracks, p, claimed);
    Balance(Elements(targets), was, claimed);
    DeactivateScope(p, placed, Stale(p, placed, targets));
    StaleCount(p, placed, targets);
  }

  lemma ClaimedActive(host: Host, p: Payload, ts: Tracks, keys: set<string>)
    ensures ActiveOf(ts, ClaimedIds(host, p, ts, keys)) == ActiveScope(ts, p) * ClaimedIds(host, p, ts, keys)
  {
    forall id ensures id in ActiveOf(ts, ClaimedIds(host, p, ts, keys))
                      <==> id in ActiveScope(ts, p) * ClaimedIds(host, p, ts, keys) {
      assert id in ClaimedIds(host, p, ts, keys) ==> InScope(ts[id], p);
    }
  }

  lemma TargetsClaimed(targets: seq<int>, before: Tracks, p: Payload, claimed: set<int>)
    requires forall id :: id in targets && id in before ==> id in claimed
    ensures Elements(targets) * ActiveScope(before, p) <= claimed
  {
    forall id | id in Elements(targets) * ActiveScope(before, p) ensures id in claimed {
      assert id in targets && id in before;
    }
  }

  lemma StaleCount(p: Payload, placed: Tracks, targets: seq<int>)
    ensures var stale := Stale(p, placed, targets);
            |ActiveScope(placed, p) - stale| == |ActiveScope(placed, p)| - |stale|
  {}

  lemma Balance(targets: set<int>, was: set<int>, claimed: set<int>)
    requires targets * was <= claimed
    ensures |targets + (was - claimed)| == |targets| + |was| - |was * claimed|
  {}

  lemma {:induction false} DistinctCount(s: seq<int>)
    requires Distinct(s)
    ensures |Elements(s)| == |s|
  {
    if s != [] {
      DistinctCount(s[1..]);
      assert Elements(s) == {s[0]} + Elements(s[1..]);
      assert s[0] !in s[1..];
    }
  }

  /** The read-back never fails on its own: if the refill leaves the tracks alone, it passes. */
  lemma ReadBackPasses(host: Host, p: Payload, before: Library, placed: Tracks, after: Library,
                       cands: seq<Candidate>, targets: seq<int>, rep: Report)
    requires Synced(host, p, before, placed, after, cands, targets, rep)
    requires CleanPaths(cands) && DistinctKeys(host, cands)
    ensures Matches(host, p, after.tracks, cands)
  {
    SyncedActive(host, p, before, placed, after, cands, targets, rep);
    ExpectedPathsActive(host, p, after.tracks, cands, targets);
    if p.replace {
      OneRowPerPath(host, p, after.tracks, cands, targets);
    }
  }

  lemma ExpectedPathsActive(host: Host, p: Payload, ts: Tracks, cands: seq<Candidate>, targets: seq<int>)
    requires HoldsPaths(p, ts, cands, targets) && CleanPaths(cands)
    ensures KeysUpTo(host, cands, |cands|) <= ActivePaths(host, p, ts)
  {
    forall i | 0 <= i < |cands| ensures host.canon(cands[i].path) in ActivePaths(host, p, ts) {
      assert targets[i] in ActiveScope(ts, p) && cands[i] in cands;
      StripShape(cands[i].path);
      var id := targets[i];
      assert id in ActiveScope(ts, p) && Strip(ts[id].path) != "";
    }
  }

  /** After a cleaning replace: no pending queue row, program item or pending schedule of the station
      names a stale track, and rows that are not pending are untouched. */
  lemma QueuesForgetStale(p: Payload, before: Library, after: Library, stale: set<int>, rep: Report)
    requires QueuesCleaned(p, before, after, stale, rep) && p.removePending && stale != {}
    ensures PendingOf(after.queue, p.station, stale) == {}
    ensures ProgramOf(after.program, p.station, stale) == {}
    ensures PendingOf(after.schedules, p.station, stale) == {}
    ensures forall id :: id in before.queue && id !in PendingIds(before.queue, p.station) ==>
              id in after.queue && after.queue[id] == before.queue[id]
    ensures PendingIds(after.queue, p.station) == PendingIds(before.queue, p.station) - PendingOf(before.queue, p.station, stale)
  {
    var mid := before.queue - PendingOf(before.queue, p.station, stale);
    DeletedGone(before.queue, p.station, stale);
    DeletedGone(before.schedules, p.station, stale);
    assert ProgramOf(after.program, p.station, stale) == {};
    RenumberedKeepsOrder(mid, after.queue, p.station);
    RenumberedKeepsTracks(mid, after.queue, p.station);
    forall id | id in PendingIds(after.queue, p.station) ensures id !in PendingOf(after.queue, p.station, stale) {
      assert id !in PendingOf(mid, p.station, stale);
    }
  }

  lemma DeletedGone(t: Table, station: int, stale: set<int>)
    ensures var rest := t - PendingOf(t, station, stale);
            && PendingOf(rest, station, stale) == {}
            && PendingIds(rest, station) == PendingIds(t, station) - PendingOf(t, station, stale)
  {
    var gone := PendingOf(t, station, stale);
    var rest := t - gone;
    forall id | id in PendingIds(rest, station) ensures id in PendingIds(t, station) - gone && id !in PendingOf(rest, station, stale) {
      assert id in t && id !in gone;
    }
    assert PendingOf(rest, station, stale) == {};
  }

  lemma RenumberedKeepsTracks(before: Table, after: Table, station: int)
    requires Renumbered(before, after, station)
    ensures forall id :: id in PendingIds(before, station) ==> id in after && after[id].track == before[id].track
  {
    var order := QueueOrder(before, station);
    NumberedAt(before, after, order, 1);
    forall id | id in PendingIds(before, station) ensures id in after && after[id].track == before[id].track {
      assert id in order;
      var k :| 0 <= k < |order| && order[k] == id;
    }
  }

  /** The surviving pending rows keep their (position, id) order and are numbered 1..n. */
  lemma SurvivorsKeepOrder(p: Payload, before: Library, after: Library, stale: set<int>, rep: Report)
    requires QueuesCleaned(p, before, after, stale, rep) && p.removePending && stale != {}
    ensures var order := QueueOrder(after.queue, p.station);
            && (forall k :: 0 <= k < |order| ==> order[k] in after.queue && after.queue[order[k]].position == k + 1)
            && (forall i, j :: 0 <= i < j < |order| ==>
                  order[i] in before.queue && order[j] in before.queue
                  && Before(Positions(before.queue), order[i], order[j]))
  {
    var mid := before.queue - PendingOf(before.queue, p.station, stale);
    RenumberedKeepsOrder(mid, after.queue, p.station);
    var order := QueueOrder(mid, p.station);
    NumberedAt(mid, after.queue, order, 1);
    forall i, j | 0 <= i < j < |order|
      ensures order[i] in before.queue && order[j] in before.queue && Before(Positions(before.queue), order[i], order[j])
    {
      InOrderAt(order, Positions(mid), i, j);
    }
  }

  /** The cleanup follows the stale rows only: a pending row of a superseded track stays queued. */
  lemma DuplicatesStayQueued(host: Host, p: Payload, before: Library, placed: Tracks, after: Library,
                             cands: seq<Candidate>, targets: seq<int>, rep: Report, item: int)
    requires Synced(host, p, before, placed, after, cands, targets, rep)
    requires item in PendingIds(before.queue, p.station)
    requires var track := before.queue[item].track;
             track in before.tracks && Superseded(host, p, before.tracks, cands, track)
    ensures item in PendingIds(after.queue, p.station)
    ensures var track := before.queue[item].track;
            track in after.tracks && !after.tracks[track].active && after.queue[item].track == track
  {
    var stale := Stale(p, placed, targets);
    TargetsAreOldest(host, p, before.tracks, placed, cands, targets, before.queue[item].track);
    RetiredNotStale(host, p, before.tracks, placed, cands, targets, before.queue[item].track);
    if stale != {} && p.removePending {
      QueuesForgetStale(p, before, after, stale, rep);
      RenumberedKeepsTracks(before.queue - PendingOf(before.queue, p.station, stale), after.queue, p.station);
    }
  }

  /** Before the sync: the row has a candidate's path, and an older row has it too. */
  predicate Superseded(host: Host, p: Payload, ts: Tracks, cands: seq<Candidate>, id: int) {
    && id in ClaimedIds(host, p, ts, KeysUpTo(host, cands, |cands|))
    && id in Group(host, p, ts, RowKey(host, ts[id]))
    && id != First(Group(host, p, ts, RowKey(host, ts[id])), IdOrder(ts))
  }

  /** The known rows among the targets are the claimed ones that no older row supersedes. */
  lemma TargetsAreOldest(host: Host, p: Payload, before: Tracks, ts: Tracks, cands: seq<Candidate>, targets: seq<int>, id: int)
    requires |targets| == |cands| && Progress(host, p, before, ts, cands, targets) && id in before
    ensures id in targets <==>
            id in ClaimedIds(host, p, before, KeysUpTo(host, cands, |cands|)) && !Superseded(host, p, before, cands, id)
  {
    if id in targets {
      var j :| 0 <= j < |targets| && targets[j] == id;
      OldestOfItsGroup(host, p, before, ts, cands, targets, j);
    }
    if id in ClaimedIds(host, p, before, KeysUpTo(host, cands, |cands|)) && !Superseded(host, p, before, cands, id) {
      var j :| 0 <= j < |cands| && host.canon(cands[j].path) == RowKey(host, before[id]);
      assert id in Group(host, p, before, host.canon(cands[j].path));
      assert Placed(host, p, before, ts, cands[j], targets[j]);
    }
  }

  lemma OldestOfItsGroup(host: Host, p: Payload, before: Tracks, ts: Tracks, cands: seq<Candidate>, targets: seq<int>, j: nat)
    requires |targets| == |cands| && Progress(host, p, before, ts, cands, targets) && j < |targets| && targets[j] in before
    ensures targets[j] in ClaimedIds(host, p, before, KeysUpTo(host, cands, |cands|))
    ensures !Superseded(host, p, before, cands, targets[j])
  {
    assert Placed(host, p, before, ts, cands[j], targets[j]);
    var group := Group(host, p, before, host.canon(cands[j].path));
    assert targets[j] in group && RowKey(host, before[targets[j]]) == host.canon(cands[j].path);
  }

  /** Exactly which pending rows are left in the queue naming an inactive track, told from the table
      before the sync: those of a row an older one with its path supersedes; and, for a row no candidate
      claims, those of a track inactive already, or stale with the removal off. */
  lemma InactiveStaysQueuedExactly(host: Host, p: Payload, before: Library, placed: Tracks, after: Library,
                                   cands: seq<Candidate>, targets: seq<int>, rep: Report, item: int)
    requires Synced(host, p, before, placed, after, cands, targets, rep)
    requires item in PendingIds(before.queue, p.station) && before.queue[item].track in before.tracks
    ensures var track := before.queue[item].track;
            track in after.tracks &&
            ((item in PendingIds(after.queue, p.station) && !after.tracks[track].active) <==>
              if track in ClaimedIds(host, p, before.tracks, KeysUpTo(host, cands, |cands|))
              then Superseded(host, p, before.tracks, cands, track)
              else !before.tracks[track].active || (InScope(before.tracks[track], p) && p.replace && !p.removePending))
  {
    var stale := Stale(p, placed, targets);
    ActiveAfter(host, p, before.tracks, placed, cands, targets);
    TargetsAreOldest(host, p, before.tracks, placed, cands, targets, before.queue[item].track);
    if stale != {} && p.removePending {
      QueuesForgetStale(p, before, after, stale, rep);
    }
  }

  lemma RetiredNotStale(host: Host, p: Payload, before: Tracks, placed: Tracks, cands: seq<Candidate>,
                        targets: seq<int>, track: int)
    requires |targets| == |cands| && Progress(host, p, before, placed, cands, targets)
    requires track in ClaimedIds(host, p, before, KeysUpTo(host, cands, |cands|)) && track !in targets
    ensures track in placed && !placed[track].active && track !in Stale(p, placed, targets)
  {}

  lemma YoungerSuperseded(host: Host, p: Payload, ts: Tracks, cands: seq<Candidate>, i: nat, elder: int, younger: int)
    requires i < |cands| && elder < younger
    requires var group := Group(host, p, ts, host.canon(cands[i].path)); elder in group && younger in group
    ensures Superseded(host, p, ts, cands, younger)
  {
    assert Before(IdOrder(ts), elder, younger);
  }

  /** Any sync of one file with two rows, the younger one queued, leaves it queued and inactive. */
  method SyncTwins(host: Host, p: Payload, before: Library, cand: Candidate, elder: int, younger: int, item: int)
    returns (after: Library)
    requires FreshIds(before) && elder < younger
    requires var group := Group(host, p, before.tracks, host.canon(cand.path)); elder in group && younger in group
    requires item in PendingIds(before.queue, p.station) && before.queue[item].track == younger
    ensures item in PendingIds(after.queue, p.station) && after.queue[item].track == younger
    ensures younger in after.tracks && !after.tracks[younger].active
  {
    var conn := new Connection(before);
    var rep, targets, placed := conn.Reconcile(host, p, [cand], None, NoFault);
    after := conn.lib;
    YoungerSuperseded(host, p, before.tracks, [cand], 0, elder, younger);
    DuplicatesStayQueued(host, p, before, placed, after, [cand], targets, rep.value, item);
  }

  /** One such library: two rows of one file, both active, and a cleaning replace. */
  method RetiredRowStaysQueued() returns (before: Library, after: Library)
    ensures 1 in before.tracks && 2 in before.tracks && before.tracks[1] == before.tracks[2] && before.tracks[2].active
    ensures 7 in PendingIds(before.queue, 1) && before.queue[7].track == 2
    ensures 7 in PendingIds(after.queue, 1) && after.queue[7].track == 2
    ensures 2 in after.tracks && !after.tracks[2].active
  {
    var none := Meta("", "", "", "", "", 0.0, "");
    var row := Track(1, "music", "a", true, none);
    before := Library(map[1 := row, 2 := row], 3, map[7 := Row(1, 2, 1, Pending, None, None, "")], map[], map[], map[]);
    StripShape("a");
    after := SyncTwins(Host(q => q, q => Some(none), q => true, q => q),
                       Payload(1, "", "music", true, false, true, "", "", ""), before, Candidate("a", none), 1, 2, 7);
  }
}
