/** A committed library sync row by row (app/api/legacy.py), told from the tables before it, the
    candidates and the request alone. */
module LibrarySyncRows {
  import opened LibrarySync
  import opened LibrarySyncTheorems
  import opened PyText
  import opened QueueTable
  import opened RowOrder
  import opened Wrappers

  // ---- Tracks -------------------------------------------------------------------------------

  ghost predicate OfLibrary(t: Track, p: Payload) {
    t.station == p.station && Lower(t.kind) == Lower(p.kind)
  }

  /** The row belongs to the library and its path, which is not blank, is the candidate's. */
  ghost predicate SharesPath(host: Host, p: Payload, t: Track, c: Candidate) {
    OfLibrary(t, p) && Strip(t.path) != "" && host.canon(Strip(t.path)) == host.canon(c.path)
  }

  ghost predicate Wanted(host: Host, p: Payload, t: Track, cands: seq<Candidate>) {
    exists j :: 0 <= j < |cands| && SharesPath(host, p, t, cands[j])
  }

  /** The old tag, unless there is a new one that is not blank. */
  ghost function Kept(was: string, tag: string): string {
    if Strip(tag) == "" then was else Strip(tag)
  }

  /** The row holds the file: its own title, artist and duration, and of the other tags the file's or the
      request's default where they are not blank, else what the row had. */
  ghost predicate Carries(p: Payload, c: Candidate, was: Meta, row: Track) {
    var m := row.meta;
    && row.station == p.station && row.kind == p.kind && row.path == c.path && row.active
    && m.title == c.meta.title && m.artist == c.meta.artist && m.duration == c.meta.duration
    && m.album == Kept(was.album, c.meta.album) && m.recording == Kept(was.recording, c.meta.recording)
    && m.genre == Kept(was.genre, if c.meta.genre == "" then p.genre else c.meta.genre)
    && m.language == Kept(was.language, if c.meta.language == "" then p.language else c.meta.language)
  }

  const NO_TAGS := Meta("", "", "", "", "", 0.0, "")

  lemma GroupIsSharers(host: Host, p: Payload, ts: Tracks, c: Candidate)
    ensures forall id :: id in Group(host, p, ts, host.canon(c.path)) <==> id in ts && SharesPath(host, p, ts[id], c)
  {}

  lemma ClaimedMeansWanted(host: Host, p: Payload, t: Track, cands: seq<Candidate>)
    ensures Claimed(host, p, t, KeysUpTo(host, cands, |cands|)) <==> Wanted(host, p, t, cands)
  {
    if Claimed(host, p, t, KeysUpTo(host, cands, |cands|)) {
      var j :| 0 <= j < |cands| && host.canon(cands[j].path) == RowKey(host, t);
      assert SharesPath(host, p, t, cands[j]);
    }
  }

  /** Every candidate's target: the oldest row with its path if there is one, else a new row, and it
      carries the file. */
  lemma TargetsCarryFiles(host: Host, p: Payload, before: Library, placed: Tracks, after: Library,
                          cands: seq<Candidate>, targets: seq<int>, rep: Report, j: nat)
    requires Synced(host, p, before, placed, after, cands, targets, rep) && j < |cands|
    ensures var id := targets[j];
            && id in after.tracks
            && (id in before.tracks <==> exists x :: x in before.tracks && SharesPath(host, p, before.tracks[x], cands[j]))
            && (id in before.tracks ==> SharesPath(host, p, before.tracks[id], cands[j]))
            && (forall x :: x in before.tracks && SharesPath(host, p, before.tracks[x], cands[j]) ==> id <= x)
            && Carries(p, cands[j], if id in before.tracks then before.tracks[id].meta else NO_TAGS, after.tracks[id])
  {
    var c, id := cands[j], targets[j];
    assert Placed(host, p, before.tracks, placed, c, id);
    assert id !in Stale(p, placed, targets) && after.tracks[id] == placed[id];
    PlacedIsOldest(host, p, before.tracks, placed, c, id);
    PlacedCarries(host, p, before.tracks, placed, c, id);
  }

  lemma PlacedIsOldest(host: Host, p: Payload, before: Tracks, placed: Tracks, c: Candidate, id: int)
    requires Placed(host, p, before, placed, c, id)
    ensures id in before <==> exists x :: x in before && SharesPath(host, p, before[x], c)
    ensures id in before ==> SharesPath(host, p, before[id], c)
    ensures forall x :: x in before && SharesPath(host, p, before[x], c) ==> id <= x
  {
    var group := Group(host, p, before, host.canon(c.path));
    GroupIsSharers(host, p, before, c);
    if group != {} {
      assert IsFirst(group, IdOrder(before), id);
      forall x | x in group ensures id <= x {
        assert x != id ==> Before(IdOrder(before), id, x);
      }
    } else {
      assert forall x :: x in before && SharesPath(host, p, before[x], c) ==> x in group;
    }
  }

  lemma PlacedCarries(host: Host, p: Payload, before: Tracks, placed: Tracks, c: Candidate, id: int)
    requires Placed(host, p, before, placed, c, id)
    ensures id in placed && Carries(p, c, if id in before then before[id].meta else NO_TAGS, placed[id])
  {
    GroupIsSharers(host, p, before, c);
  }

  /** Every other row keeps all it had; it stays active unless the library is replaced or a candidate has
      its path. No row is lost, and only targets are new. */
  lemma OthersOnlyDeactivated(host: Host, p: Payload, before: Library, placed: Tracks, after: Library,
                              cands: seq<Candidate>, targets: seq<int>, rep: Report)
    requires Synced(host, p, before, placed, after, cands, targets, rep)
    ensures forall id :: id in after.tracks <==> id in before.tracks || id in targets
    ensures forall id :: id in before.tracks && id !in targets ==>
              var t := before.tracks[id];
              after.tracks[id] == Track(t.station, t.kind, t.path,
                t.active && !(OfLibrary(t, p) && (p.replace || Wanted(host, p, t, cands))), t.meta)
  {
    assert after.tracks.Keys == placed.Keys;
    forall id | id in before.tracks && id !in targets
      ensures var t := before.tracks[id];
              after.tracks[id] == Track(t.station, t.kind, t.path,
                t.active && !(OfLibrary(t, p) && (p.replace || Wanted(host, p, t, cands))), t.meta)
    {
      ClaimedMeansWanted(host, p, before.tracks[id], cands);
      assert id in Stale(p, placed, targets) <==> p.replace && InScope(placed[id], p) && placed[id].active;
    }
  }

  /** A row a replace takes off: active, of the library, no target, and at no candidate's path. */
  ghost predicate TakenOff(host: Host, p: Payload, ts: Tracks, cands: seq<Candidate>, targets: seq<int>, id: int) {
    && p.replace && id in ts && id !in targets && ts[id].active && OfLibrary(ts[id], p)
    && !Wanted(host, p, ts[id], cands)
  }

  /** A row that loses its place to the target with its path. */
  ghost predicate Duplicate(host: Host, p: Payload, ts: Tracks, cands: seq<Candidate>, targets: seq<int>, id: int) {
    id in ts && id !in targets && ts[id].active && Wanted(host, p, ts[id], cands)
  }

  lemma StaleExactly(host: Host, p: Payload, before: Library, placed: Tracks, after: Library,
                     cands: seq<Candidate>, targets: seq<int>, rep: Report)
    requires Synced(host, p, before, placed, after, cands, targets, rep)
    ensures forall id :: id in Stale(p, placed, targets) <==> TakenOff(host, p, before.tracks, cands, targets, id)
  {
    var stale := Stale(p, placed, targets);
    forall id ensures id in stale <==> TakenOff(host, p, before.tracks, cands, targets, id) {
      if id in placed && id !in targets {
        assert id in before.tracks.Keys + Elements(targets);
        ClaimedMeansWanted(host, p, before.tracks[id], cands);
      }
    }
  }

  lemma DuplicatesExactly(host: Host, p: Payload, before: Library, placed: Tracks, after: Library,
                          cands: seq<Candidate>, targets: seq<int>, rep: Report)
    requires Synced(host, p, before, placed, after, cands, targets, rep)
    ensures var claimed := ActiveOf(before.tracks, ClaimedIds(host, p, before.tracks, KeysUpTo(host, cands, |cands|)));
            && ActiveOf(before.tracks, Elements(targets)) <= claimed
            && forall id :: id in claimed - ActiveOf(before.tracks, Elements(targets))
                            <==> Duplicate(host, p, before.tracks, cands, targets, id)
  {
    var ts := before.tracks;
    var claimed := ActiveOf(ts, ClaimedIds(host, p, ts, KeysUpTo(host, cands, |cands|)));
    ActiveAfter(host, p, ts, placed, cands, targets);
    forall id ensures id in claimed - ActiveOf(ts, Elements(targets)) <==> Duplicate(host, p, ts, cands, targets, id) {
      if id in ts {
        ClaimedMeansWanted(host, p, ts[id], cands);
      }
    }
  }

  /** The report counts what happened: new rows, rows that came back, rows that were active already,
      duplicates that were, and rows a replace took off. */
  lemma CountsExactly(host: Host, p: Payload, before: Library, placed: Tracks, after: Library,
                      cands: seq<Candidate>, targets: seq<int>, rep: Report)
    requires Synced(host, p, before, placed, after, cands, targets, rep)
    ensures var ts, ids := before.tracks, set id | id in targets;
            && rep.counts.added == |ids - ts.Keys|
            && rep.counts.reactivated == |set id | id in ids && id in ts && !ts[id].active|
            && rep.counts.retained == |set id | id in ids && id in ts && ts[id].active|
            && rep.counts.duplicates == |set id | id in ts && Duplicate(host, p, ts, cands, targets, id)|
            && rep.deactivated == |set id | id in ts && TakenOff(host, p, ts, cands, targets, id)|
  {
    TargetCounts(before.tracks, set id | id in targets);
    DistinctCount(targets);
    RetiredCounts(host, p, before, placed, after, cands, targets, rep);
    assert Elements(targets) == set id | id in targets;
  }

  lemma RetiredCounts(host: Host, p: Payload, before: Library, placed: Tracks, after: Library,
                      cands: seq<Candidate>, targets: seq<int>, rep: Report)
    requires Synced(host, p, before, placed, after, cands, targets, rep)
    ensures var ts := before.tracks;
            && rep.counts.duplicates == |set id | id in ts && Duplicate(host, p, ts, cands, targets, id)|
            && rep.deactivated == |set id | id in ts && TakenOff(host, p, ts, cands, targets, id)|
  {
    DuplicatesExactly(host, p, before, placed, after, cands, targets, rep);
    DuplicateSet(host, p, before.tracks, cands, targets);
    StaleExactly(host, p, before, placed, after, cands, targets, rep);
    TakenOffSet(host, p, before.tracks, placed, cands, targets);
  }

  lemma DuplicateSet(host: Host, p: Payload, ts: Tracks, cands: seq<Candidate>, targets: seq<int>)
    requires var claimed := ActiveOf(ts, ClaimedIds(host, p, ts, KeysUpTo(host, cands, |cands|)));
             && ActiveOf(ts, Elements(targets)) <= claimed
             && forall id :: id in claimed - ActiveOf(ts, Elements(targets)) <==> Duplicate(host, p, ts, cands, targets, id)
    ensures |set id | id in ts && Duplicate(host, p, ts, cands, targets, id)|
            == |ActiveOf(ts, ClaimedIds(host, p, ts, KeysUpTo(host, cands, |cands|)))| - |ActiveOf(ts, Elements(targets))|
  {
    var claimed, kept := ActiveOf(ts, ClaimedIds(host, p, ts, KeysUpTo(host, cands, |cands|))), ActiveOf(ts, Elements(targets));
    assert (set id | id in ts && Duplicate(host, p, ts, cands, targets, id)) == claimed - kept;
    assert |claimed - kept| == |claimed| - |kept|;
  }

  lemma TakenOffSet(host: Host, p: Payload, ts: Tracks, placed: Tracks, cands: seq<Candidate>, targets: seq<int>)
    requires forall id :: id in Stale(p, placed, targets) <==> TakenOff(host, p, ts, cands, targets, id)
    ensures (set id | id in ts && TakenOff(host, p, ts, cands, targets, id)) == Stale(p, placed, targets)
  {
    var off := set id | id in ts && TakenOff(host, p, ts, cands, targets, id);
    forall id ensures id in off <==> id in Stale(p, placed, targets) {}
  }

  lemma TargetCounts(ts: Tracks, ids: set<int>)
    ensures |ids| == |ids - ts.Keys| + |ActiveOf(ts, ids)| + |set id | id in ids && id in ts && !ts[id].active|
    ensures (set id | id in ids && id in ts && ts[id].active) == ActiveOf(ts, ids)
  {
    var back := set id | id in ids && id in ts && !ts[id].active;
    assert ids == (ids - ts.Keys) + ActiveOf(ts, ids) + back;
  }

  // ---- The queues ---------------------------------------------------------------------------

  /** The cleanup is asked for, and this row of the station is to be played and names a track taken off. */
  ghost predicate Goes(p: Payload, off: set<int>, station: int, track: int, waits: bool) {
    p.removePending && station == p.station && waits && track in off
  }

  ghost function Off(host: Host, p: Payload, before: Library, cands: seq<Candidate>, targets: seq<int>): set<int> {
    set id | id in before.tracks && TakenOff(host, p, before.tracks, cands, targets, id)
  }

  /** A pending row of the station that stays. */
  ghost predicate Survives(p: Payload, off: set<int>, queue: Table, id: int) {
    && id in queue && queue[id].station == p.station && queue[id].status == Pending
    && !Goes(p, off, p.station, queue[id].track, true)
  }

  /** Of the rows of a queue exactly those that go are gone. */
  ghost predicate RowsGone(p: Payload, off: set<int>, t: Table, u: Table) {
    forall id :: id in u <==> (id in t && !Goes(p, off, t[id].station, t[id].track, t[id].status == Pending))
  }

  ghost predicate ItemsGone(p: Payload, off: set<int>, t: Program, u: Program) {
    forall id :: id in u <==> (id in t && !Goes(p, off, t[id].station, t[id].track, true))
  }

  /** Which rows of the three queues go, and how many: the pending ones of the station, and of its program
      all, that name a track taken off. */
  lemma QueueRowsExactly(host: Host, p: Payload, before: Library, placed: Tracks, after: Library,
                         cands: seq<Candidate>, targets: seq<int>, rep: Report)
    requires Synced(host, p, before, placed, after, cands, targets, rep)
    ensures var off := Off(host, p, before, cands, targets);
            && RowsGone(p, off, before.queue, after.queue) && RowsGone(p, off, before.schedules, after.schedules)
            && ItemsGone(p, off, before.program, after.program)
    ensures forall id :: id in after.program ==> id in before.program && after.program[id] == before.program[id]
    ensures forall id :: id in after.schedules ==> id in before.schedules && after.schedules[id] == before.schedules[id]
    ensures rep.pendingRemoved == |before.queue| - |after.queue|
    ensures rep.programRemoved == |before.program| - |after.program|
    ensures rep.schedulesRemoved == |before.schedules| - |after.schedules|
  {
    StaleExactly(host, p, before, placed, after, cands, targets, rep);
    TakenOffSet(host, p, before.tracks, placed, cands, targets);
    var off := Off(host, p, before, cands, targets);
    assert QueuesCleaned(p, before, after, off, rep);
    if off != {} && p.removePending {
      GoneRows(p, off, before.queue, after.queue);
      GoneRows(p, off, before.schedules, after.schedules);
      GoneItems(p, off, before.program, after.program);
    }
  }

  lemma GoneRows(p: Payload, off: set<int>, t: Table, u: Table)
    requires p.removePending && u.Keys == t.Keys - PendingOf(t, p.station, off)
    ensures RowsGone(p, off, t, u) && |PendingOf(t, p.station, off)| == |t| - |u|
  {
    forall id | id in PendingOf(t, p.station, off) ensures id in t.Keys {
      assert id in PendingIds(t, p.station);
    }
    assert |u.Keys| == |t.Keys| - |PendingOf(t, p.station, off)| && |u.Keys| == |u| && |t.Keys| == |t|;
  }

  lemma GoneItems(p: Payload, off: set<int>, t: Program, u: Program)
    requires p.removePending && u.Keys == t.Keys - ProgramOf(t, p.station, off)
    ensures ItemsGone(p, off, t, u) && |ProgramOf(t, p.station, off)| == |t| - |u|
  {
    assert ProgramOf(t, p.station, off) <= t.Keys;
    assert |u.Keys| == |t.Keys| - |ProgramOf(t, p.station, off)| && |u.Keys| == |u| && |t.Keys| == |t|;
  }

  /** The survivors have the places 1..n in their old order. */
  ghost predicate InPlace(queue: Table, after: Table, survivors: set<int>) {
    && (forall id :: id in survivors ==> id in queue && id in after && 1 <= after[id].position <= |survivors|)
    && (forall a, b :: a in survivors && b in survivors && a in after && b in after && a in queue && b in queue ==>
          (after[a].position < after[b].position <==>
             queue[a].position < queue[b].position || (queue[a].position == queue[b].position && a < b)))
  }

  /** Rows that stay change nothing but, pending at the station, their place. */
  ghost predicate OnlyMoved(p: Payload, off: set<int>, t: Table, u: Table) {
    && (forall id :: Survives(p, off, t, id) ==> id in u && u[id] == t[id].(position := u[id].position))
    && (forall id :: id in u && !Survives(p, off, t, id) ==> id in t && u[id] == t[id])
  }

  /** Surviving pending rows change nothing but their place, and only where something is taken off: then
      they get the places 1..n in their old order. All other rows that stay are as they were. */
  lemma QueuePlacesExactly(host: Host, p: Payload, before: Library, placed: Tracks, after: Library,
                           cands: seq<Candidate>, targets: seq<int>, rep: Report)
    requires Synced(host, p, before, placed, after, cands, targets, rep)
    ensures var off := Off(host, p, before, cands, targets);
            && OnlyMoved(p, off, before.queue, after.queue)
            && if !p.removePending || off == {} then after.queue == before.queue
               else InPlace(before.queue, after.queue, set id | id in before.queue && Survives(p, off, before.queue, id))
  {
    StaleExactly(host, p, before, placed, after, cands, targets, rep);
    TakenOffSet(host, p, before.tracks, placed, cands, targets);
    var off := Off(host, p, before, cands, targets);
    assert QueuesCleaned(p, before, after, off, rep);
    if off != {} && p.removePending {
      CleanedPlaces(p, off, before.queue, after.queue);
    }
  }

  lemma CleanedPlaces(p: Payload, off: set<int>, t: Table, u: Table)
    requires p.removePending && Renumbered(t - PendingOf(t, p.station, off), u, p.station)
    ensures OnlyMoved(p, off, t, u)
    ensures InPlace(t, u, set id | id in t && Survives(p, off, t, id))
  {
    var mid := t - PendingOf(t, p.station, off);
    SurvivorsArePending(p, off, t);
    RenumberedPlaces(mid, u, p.station);
    CleanedMoves(p, off, t, mid, u);
    SamePlaces(t, mid, u, PendingIds(mid, p.station));
  }

  lemma SamePlaces(t: Table, mid: Table, u: Table, ids: set<int>)
    requires InPlace(mid, u, ids) && forall id :: id in mid ==> id in t && t[id] == mid[id]
    ensures InPlace(t, u, ids)
  {}

  lemma CleanedMoves(p: Payload, off: set<int>, t: Table, mid: Table, u: Table)
    requires p.removePending && mid == t - PendingOf(t, p.station, off) && u.Keys == mid.Keys
    requires forall id :: id in mid && id !in PendingIds(mid, p.station) ==> u[id] == mid[id]
    requires forall id :: id in PendingIds(mid, p.station) ==> u[id] == mid[id].(position := u[id].position)
    ensures OnlyMoved(p, off, t, u)
  {
    SurvivorsArePending(p, off, t);
    var survivors := set id | id in t && Survives(p, off, t, id);
    forall id ensures Survives(p, off, t, id) <==> id in PendingIds(mid, p.station) {
      assert Survives(p, off, t, id) <==> id in survivors;
    }
  }

  lemma SurvivorsArePending(p: Payload, off: set<int>, t: Table)
    requires p.removePending
    ensures (set id | id in t && Survives(p, off, t, id)) == PendingIds(t - PendingOf(t, p.station, off), p.station)
  {}

  lemma RenumberedPlaces(before: Table, after: Table, station: int)
    requires Renumbered(before, after, station)
    ensures forall id :: id in PendingIds(before, station) ==>
              id in after && after[id] == before[id].(position := after[id].position)
    ensures InPlace(before, after, PendingIds(before, station))
  {
    var ids := PendingIds(before, station);
    forall id | id in ids ensures id in after && after[id] == before[id].(position := after[id].position)
                                  && 1 <= after[id].position <= |ids|
    {
      var _ := PlaceOf(before, after, station, id);
    }
    forall a, b | a in ids && b in ids && a in after && b in after
      ensures after[a].position < after[b].position <==>
              before[a].position < before[b].position || (before[a].position == before[b].position && a < b)
    {
      PlacesCompare(before, after, station, a, b);
    }
  }

  lemma PlaceOf(before: Table, after: Table, station: int, id: int) returns (k: nat)
    requires Renumbered(before, after, station) && id in PendingIds(before, station)
    ensures k < |QueueOrder(before, station)| && QueueOrder(before, station)[k] == id
    ensures id in after && after[id] == before[id].(position := k + 1) && k < |PendingIds(before, station)|
  {
    var order := QueueOrder(before, station);
    NumberedAt(before, after, order, 1);
    assert id in order;
    k :| 0 <= k < |order| && order[k] == id;
  }

  lemma PlacesCompare(before: Table, after: Table, station: int, a: int, b: int)
    requires Renumbered(before, after, station)
    requires a in PendingIds(before, station) && b in PendingIds(before, station) && a in after && b in after
    ensures after[a].position < after[b].position <==>
            before[a].position < before[b].position || (before[a].position == before[b].position && a < b)
  {
    assert Positions(before)[a] == before[a].position && Positions(before)[b] == before[b].position;
    var i := PlaceOf(before, after, station, a);
    var j := PlaceOf(before, after, station, b);
    var order := QueueOrder(before, station);
    if i < j {
      InOrderAt(order, Positions(before), i, j);
    } else if j < i {
      InOrderAt(order, Positions(before), j, i);
    }
  }

  // ---- Settings and the read-back -----------------------------------------------------------

  ghost function Prefix(kind: string): string {
    if kind == "music" then "library" else kind + "_library"
  }

  ghost function FolderKey(kind: string): string {
    if kind == "music" then "music_library_folder" else kind + "_library_folder"
  }

  lemma TailsDiffer(head: string, a: string, b: string)
    requires a != b
    ensures head + a != head + b
  {
    assert (head + a)[|head|..] == a && (head + b)[|head|..] == b;
  }

  /** The five settings have five names. */
  lemma KeysDiffer(kind: string)
    ensures var pre, folder := Prefix(kind), FolderKey(kind);
            && folder !in {pre + "_management_mode", pre + "_profile_label", pre + "_default_genre", pre + "_default_language"}
            && pre + "_management_mode" !in {pre + "_profile_label", pre + "_default_genre", pre + "_default_language"}
            && pre + "_profile_label" !in {pre + "_default_genre", pre + "_default_language"}
            && pre + "_default_genre" != pre + "_default_language"
  {
    var pre := Prefix(kind);
    var tails := ["_folder", "_management_mode", "_profile_label", "_default_genre", "_default_language"];
    forall i, j | 0 <= i < j < 5 ensures pre + tails[i] != pre + tails[j] {
      assert |tails[0]| == 7 && |tails[1]| == 16 && |tails[2]| == 14 && |tails[3]| == 14 && |tails[4]| == 17;
      assert tails[2][1] == 'p' && tails[3][1] == 'd';
      TailsDiffer(pre, tails[i], tails[j]);
    }
    if kind == "music" {
      assert FolderKey(kind)[0] == 'm' && forall i :: 0 <= i < 5 ==> (pre + tails[i])[0] == 'l';
    } else {
      assert FolderKey(kind) == pre + tails[0];
    }
    assert tails[1] == "_management_mode" && tails[2] == "_profile_label" && tails[3] == "_default_genre" && tails[4] == "_default_language";
  }

  lemma ProfileExactly(settings: map<(int, string), string>, p: Payload)
    ensures var pre, folder := Prefix(p.kind), FolderKey(p.kind);
            ProfileSettings(settings, p) == settings + map[
              (p.station, folder) := p.folder,
              (p.station, pre + "_management_mode") := if p.replace then "replace" else "merge",
              (p.station, pre + "_profile_label") := Strip(p.profile),
              (p.station, pre + "_default_genre") := Strip(p.genre),
              (p.station, pre + "_default_language") := Strip(p.language)]
  {
    KeysDiffer(p.kind);
  }

  /** The five profile settings a sync stores, under the names of its kind, and no other. */
  lemma SettingsExactly(host: Host, p: Payload, before: Library, placed: Tracks, after: Library,
                        cands: seq<Candidate>, targets: seq<int>, rep: Report)
    requires Synced(host, p, before, placed, after, cands, targets, rep)
    ensures var pre, folder := Prefix(p.kind), FolderKey(p.kind);
            after.settings == before.settings + map[
              (p.station, folder) := p.folder,
              (p.station, pre + "_management_mode") := if p.replace then "replace" else "merge",
              (p.station, pre + "_profile_label") := Strip(p.profile),
              (p.station, pre + "_default_genre") := Strip(p.genre),
              (p.station, pre + "_default_language") := Strip(p.language)]
  {
    ProfileExactly(before.settings, p);
  }

  /** An active row of the library at this path, which is not blank. */
  ghost predicate ActiveAt(host: Host, p: Payload, ts: Tracks, id: int, key: string) {
    id in ts && OfLibrary(ts[id], p) && ts[id].active && Strip(ts[id].path) != "" && host.canon(ts[id].path) == key
  }

  ghost predicate Occupied(host: Host, p: Payload, ts: Tracks, key: string) {
    exists id :: ActiveAt(host, p, ts, id, key)
  }

  /** Every candidate's path has an active row. */
  ghost predicate EachActive(host: Host, p: Payload, ts: Tracks, cands: seq<Candidate>) {
    forall j :: 0 <= j < |cands| ==> Occupied(host, p, ts, host.canon(cands[j].path))
  }

  /** Every active row has a candidate's path. */
  ghost predicate NoneElse(host: Host, p: Payload, ts: Tracks, cands: seq<Candidate>) {
    forall id, key :: ActiveAt(host, p, ts, id, key) ==> exists j :: 0 <= j < |cands| && host.canon(cands[j].path) == key
  }

  /** What the read-back reads, and when it passes: every candidate's path has an active row and, for a
      replace, no active row has another path. */
  lemma MatchesExactly(host: Host, p: Payload, ts: Tracks, cands: seq<Candidate>)
    ensures forall key :: key in ActivePaths(host, p, ts) <==> Occupied(host, p, ts, key)
    ensures Matches(host, p, ts, cands) <==>
            EachActive(host, p, ts, cands) && (p.replace ==> NoneElse(host, p, ts, cands))
  {
    var active, expected := ActivePaths(host, p, ts), KeysUpTo(host, cands, |cands|);
    ActivePathsRead(host, p, ts);
    if expected <= active {
      forall j | 0 <= j < |cands| ensures Occupied(host, p, ts, host.canon(cands[j].path)) {
        assert host.canon(cands[j].path) in active;
      }
      assert EachActive(host, p, ts, cands);
    }
    if active <= expected {
      forall id, key | ActiveAt(host, p, ts, id, key)
        ensures exists j :: 0 <= j < |cands| && host.canon(cands[j].path) == key
      {
        assert key in active && key in expected;
      }
    }
    if EachActive(host, p, ts, cands) {
      forall key | key in expected ensures key in active {
        var j :| 0 <= j < |cands| && host.canon(cands[j].path) == key;
      }
      assert expected <= active;
    }
    if NoneElse(host, p, ts, cands) {
      forall key | key in active ensures key in expected {
        var id :| ActiveAt(host, p, ts, id, key);
      }
    }
    assert active == expected <==> active <= expected && expected <= active;
  }

  lemma ActivePathsRead(host: Host, p: Payload, ts: Tracks)
    ensures forall key :: key in ActivePaths(host, p, ts) <==> Occupied(host, p, ts, key)
  {
    var active := ActivePaths(host, p, ts);
    forall key ensures key in active <==> Occupied(host, p, ts, key) {
      if key in active {
        var id :| id in ActiveScope(ts, p) && Strip(ts[id].path) != "" && host.canon(ts[id].path) == key;
        assert ActiveAt(host, p, ts, id, key);
      }
      if id :| ActiveAt(host, p, ts, id, key) {
        assert id in ActiveScope(ts, p);
      }
    }
  }

  /** The count of files is stored under the name of the kind. */
  lemma ActiveFilesExactly(settings: map<(int, string), string>, p: Payload, n: nat)
    ensures ActiveFiles(settings, p, n) == settings[(p.station, Prefix(p.kind) + "_active_files") := Decimal(n)]
  {}

  // ---- The folder ---------------------------------------------------------------------------

  /** Entry i is an audio file that resolves, and the first with its canonical path. */
  ghost predicate Listed(host: Host, listing: seq<Entry>, i: int) {
    0 <= i < |listing| && listing[i].audio && listing[i].resolved.Some?
  }

  ghost predicate IsFile(host: Host, listing: seq<Entry>, i: int) {
    && Listed(host, listing, i)
    && forall k :: 0 <= k < i && Listed(host, listing, k) ==>
         host.canon(listing[k].resolved.value) != host.canon(listing[i].resolved.value)
  }

  ghost function Files(host: Host, listing: seq<Entry>): set<int> {
    set i | 0 <= i < |listing| && IsFile(host, listing, i)
  }

  /** The audio probe rejects some file that strikes off this one's path: under its own path if it lies in
      the folder, else under its bare name there. */
  ghost predicate IsStruck(host: Host, listing: seq<Entry>, i: int)
    requires Listed(host, listing, i)
  {
    exists k :: IsFile(host, listing, k) && host.probe(listing[k].resolved.value).None?
      && host.canon(listing[i].resolved.value)
         == host.canon(if host.inFolder(listing[k].resolved.value) then listing[k].resolved.value
                       else host.byName(listing[k].resolved.value))
  }

  lemma FilesOfPrefix(host: Host, listing: seq<Entry>)
    requires listing != []
    ensures var n := |listing| - 1;
            && Files(host, listing) == Files(host, listing[..n]) + (if IsFile(host, listing, n) then {n} else {})
            && n !in Files(host, listing[..n])
            && forall i :: 0 <= i < n ==> listing[..n][i] == listing[i]
                                          && (Listed(host, listing[..n], i) <==> Listed(host, listing, i))
  {
    var n := |listing| - 1;
    forall i | 0 <= i < n ensures IsFile(host, listing, i) <==> IsFile(host, listing[..n], i) {
      forall k | 0 <= k <= i ensures listing[k] == listing[..n][k] {}
    }
  }

  lemma {:induction false} PathKeysExactly(host: Host, listing: seq<Entry>)
    ensures forall key :: key in PathKeys(host, Paths(host, listing)) <==>
              exists i :: Listed(host, listing, i) && host.canon(listing[i].resolved.value) == key
  {
    if listing != [] {
      var n := |listing| - 1;
      PathKeysExactly(host, listing[..n]);
      FilesOfPrefix(host, listing);
      var front, all := PathKeys(host, Paths(host, listing[..n])), PathKeys(host, Paths(host, listing));
      assert all == front + (if Listed(host, listing, n) then {host.canon(listing[n].resolved.value)} else {});
      forall key ensures key in all <==> exists i :: Listed(host, listing, i) && host.canon(listing[i].resolved.value) == key {
        if i :| Listed(host, listing, i) && host.canon(listing[i].resolved.value) == key {
          assert i < n ==> Listed(host, listing[..n], i);
        }
        if key in front {
          var i :| Listed(host, listing[..n], i) && host.canon(listing[..n][i].resolved.value) == key;
          assert Listed(host, listing, i);
        }
      }
    }
  }

  /** The loop takes an entry exactly when it is the first of its path. */
  lemma TakenIsFile(host: Host, listing: seq<Entry>)
    requires listing != []
    ensures var n := |listing| - 1; var e := listing[n];
            (e.audio && e.resolved.Some? && host.canon(e.resolved.value) !in PathKeys(host, Paths(host, listing[..n])))
            <==> IsFile(host, listing, n)
  {
    var n := |listing| - 1;
    PathKeysExactly(host, listing[..n]);
    FilesOfPrefix(host, listing);
    if Listed(host, listing, n) && !IsFile(host, listing, n) {
      var k :| 0 <= k < n && Listed(host, listing, k)
        && host.canon(listing[k].resolved.value) == host.canon(listing[n].resolved.value);
      assert Listed(host, listing[..n], k);
    }
  }

  /** The paths are those of the files, each once. */
  lemma {:induction false} PathsExactly(host: Host, listing: seq<Entry>)
    ensures |Paths(host, listing)| == |Files(host, listing)|
    ensures forall q :: q in Paths(host, listing) <==> IsPath(host, listing, q)
  {
    if listing != [] {
      var n := |listing| - 1;
      PathsExactly(host, listing[..n]);
      FilesOfPrefix(host, listing);
      TakenIsFile(host, listing);
      forall q ensures IsPath(host, listing, q) <==>
        IsPath(host, listing[..n], q) || (IsFile(host, listing, n) && listing[n].resolved == Some(q))
      {
        PathOfPrefix(host, listing, q);
      }
    }
  }

  ghost predicate IsPath(host: Host, listing: seq<Entry>, q: string) {
    exists i :: i in Files(host, listing) && listing[i].resolved == Some(q)
  }

  lemma PathOfPrefix(host: Host, listing: seq<Entry>, q: string)
    requires listing != []
    ensures var n := |listing| - 1;
            IsPath(host, listing, q) <==>
            IsPath(host, listing[..n], q) || (IsFile(host, listing, n) && listing[n].resolved == Some(q))
  {
    var n := |listing| - 1;
    FilesOfPrefix(host, listing);
    if i :| i in Files(host, listing) && listing[i].resolved == Some(q) {
      assert i < n ==> i in Files(host, listing[..n]);
    }
    if i :| i in Files(host, listing[..n]) && listing[..n][i].resolved == Some(q) {
      assert i in Files(host, listing);
    }
  }

  ghost predicate SomeUnplayable(host: Host, listing: seq<Entry>) {
    exists i :: i in Files(host, listing) && host.probe(listing[i].resolved.value).None?
  }

  ghost predicate AllStruck(host: Host, listing: seq<Entry>) {
    forall i :: i in Files(host, listing) ==> IsStruck(host, listing, i)
  }

  /** The candidates are the files not struck off, each with what the probe said of it. */
  ghost predicate ListsTheRest(host: Host, listing: seq<Entry>, cands: seq<Candidate>) {
    forall q, m :: Candidate(q, m) in cands <==>
      (exists i :: i in Files(host, listing) && listing[i].resolved == Some(q) && !IsStruck(host, listing, i))
      && m == match host.probe(q) case Some(found) => found case None => NO_TAGS
  }

  /** Which answer a folder gets, told from its entries: nothing there, too much there, an unplayable file
      that may not be skipped or leaves nothing, or a plan for the rest. */
  lemma FolderExactly(host: Host, p: Payload, listing: seq<Entry>, plan: Plan)
    requires Answers(host, p, listing, plan)
    ensures var files := |Files(host, listing)|;
            && (plan == Rejected(400) <==> files == 0)
            && (plan == Rejected(413) <==> files > 5000)
            && (plan == Rejected(422) <==>
                  0 < files <= 5000 && SomeUnplayable(host, listing) && (!p.skipUnplayable || AllStruck(host, listing)))
            && (plan.Plan? <==>
                  0 < files <= 5000 && (SomeUnplayable(host, listing) ==> p.skipUnplayable && !AllStruck(host, listing)))
            && (plan.Plan? ==> ListsTheRest(host, listing, plan.cands))
    // A candidate without metadata, which makes the write phase raise, is an unplayable file not struck off.
    ensures plan.Plan? ==> (plan.missing.Some? <==> SomeLeft(host, listing))
  {
    if plan.Plan? {
      MissingExactly(host, listing, plan.missing);
    }
    PathsExactly(host, listing);
    PlayableExactly(host, listing);
    KeptExactly(host, listing);
    PlanMembers(host, listing);
  }

  ghost predicate SomeLeft(host: Host, listing: seq<Entry>) {
    exists i :: i in Files(host, listing) && !IsStruck(host, listing, i) && host.probe(listing[i].resolved.value).None?
  }

  lemma MissingExactly(host: Host, listing: seq<Entry>, missing: Option<nat>)
    requires IsMissing(host, Keep(host, Paths(host, listing), StruckKeys(host, Paths(host, listing))), missing)
    ensures missing.Some? <==> SomeLeft(host, listing)
  {
    var kept := Keep(host, Paths(host, listing), StruckKeys(host, Paths(host, listing)));
    KeptExactly(host, listing);
    if missing.Some? {
      assert kept[missing.value] in kept;
    }
    assert forall i :: i in Files(host, listing) && !IsStruck(host, listing, i) ==> listing[i].resolved.value in kept;
  }

  lemma PlayableExactly(host: Host, listing: seq<Entry>)
    ensures AllPlayable(host, Paths(host, listing)) <==> !SomeUnplayable(host, listing)
  {
    var paths := Paths(host, listing);
    PathsExactly(host, listing);
    forall i | i in Files(host, listing) ensures listing[i].resolved.value in paths {
      assert IsPath(host, listing, listing[i].resolved.value);
    }
    forall q | q in paths ensures exists i :: i in Files(host, listing) && listing[i].resolved.value == q {
      assert IsPath(host, listing, q);
    }
  }

  /** The files the filter keeps. */
  lemma KeptExactly(host: Host, listing: seq<Entry>)
    ensures var kept := Keep(host, Paths(host, listing), StruckKeys(host, Paths(host, listing)));
            && (forall q :: q in kept <==>
                  exists i :: i in Files(host, listing) && listing[i].resolved == Some(q) && !IsStruck(host, listing, i))
            && (kept == [] <==> AllStruck(host, listing))
  {
    var paths := Paths(host, listing);
    var kept := Keep(host, paths, StruckKeys(host, paths));
    PathsExactly(host, listing);
    StruckExactly(host, listing);
    PathsDistinct(host, listing);
    KeepMembers(host, paths, StruckKeys(host, paths));
    forall q ensures q in kept <==>
      exists i :: i in Files(host, listing) && listing[i].resolved == Some(q) && !IsStruck(host, listing, i)
    {
      if q in kept {
        assert IsPath(host, listing, q);
        var i :| i in Files(host, listing) && listing[i].resolved == Some(q);
        assert !IsStruck(host, listing, i);
      }
      if i :| i in Files(host, listing) && listing[i].resolved == Some(q) && !IsStruck(host, listing, i) {
        assert IsPath(host, listing, q);
      }
    }
    if kept != [] {
      assert kept[0] in kept;
    }
    if i :| i in Files(host, listing) && !IsStruck(host, listing, i) {
      assert listing[i].resolved == Some(listing[i].resolved.value);
      assert listing[i].resolved.value in kept;
    }
  }

  lemma PlanMembers(host: Host, listing: seq<Entry>)
    ensures ListsTheRest(host, listing, Describe(host, Keep(host, Paths(host, listing), StruckKeys(host, Paths(host, listing)))))
  {
    KeptExactly(host, listing);
    DescribedExactly(host, Keep(host, Paths(host, listing), StruckKeys(host, Paths(host, listing))));
  }

  lemma StruckExactly(host: Host, listing: seq<Entry>)
    ensures forall i :: i in Files(host, listing) ==>
              (host.canon(listing[i].resolved.value) in StruckKeys(host, Paths(host, listing)) <==> IsStruck(host, listing, i))
  {
    PathsExactly(host, listing);
    var paths := Paths(host, listing);
    forall i | i in Files(host, listing)
      ensures host.canon(listing[i].resolved.value) in StruckKeys(host, paths) <==> IsStruck(host, listing, i)
    {
      var key := host.canon(listing[i].resolved.value);
      if key in StruckKeys(host, paths) {
        var q :| q in paths && host.probe(q).None? && StruckKey(host, q) == key;
        assert IsPath(host, listing, q);
        var k :| k in Files(host, listing) && listing[k].resolved == Some(q);
      }
      if k :| IsFile(host, listing, k) && host.probe(listing[k].resolved.value).None?
              && key == host.canon(if host.inFolder(listing[k].resolved.value) then listing[k].resolved.value
                                   else host.byName(listing[k].resolved.value))
      {
        assert k in Files(host, listing) && IsPath(host, listing, listing[k].resolved.value);
        assert listing[k].resolved.value in paths;
      }
    }
  }

  lemma DescribedExactly(host: Host, kept: seq<string>)
    ensures forall q, m :: Candidate(q, m) in Describe(host, kept) <==>
              q in kept && m == match host.probe(q) case Some(found) => found case None => NO_TAGS
  {
    var cands := Describe(host, kept);
    forall q, m | q in kept && m == match host.probe(q) case Some(found) => found case None => NO_TAGS
      ensures Candidate(q, m) in cands
    {
      var i :| 0 <= i < |kept| && kept[i] == q;
      assert cands[i] == Candidate(q, m);
    }
  }
}
