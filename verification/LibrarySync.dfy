/** The managed library sync (app/api/legacy.py, `_sync_station_library_folder_with_connection`):
    making a station's track table match a folder, and cleaning the queues behind it. */
module LibrarySync {
  import opened PyText
  import opened QueueTable
  import opened RowOrder
  import opened Wrappers

  datatype Meta = Meta(title: string, artist: string, album: string, genre: string,
                       language: string, duration: real, recording: string)

  /** A NULL column reads as the empty string. */
  datatype Track = Track(station: int, kind: string, path: string, active: bool, meta: Meta)

  type Tracks = map<int, Track>

  datatype ProgramItem = ProgramItem(station: int, track: int, position: int)

  type Program = map<int, ProgramItem>

  /** `nextTrack` is the row id the next insert gets. */
  datatype Library = Library(tracks: Tracks, nextTrack: int, queue: Table, program: Program,
                             schedules: Table, settings: map<(int, string), string>)

  datatype Payload = Payload(station: int, folder: string, kind: string, replace: bool,
                             skipUnplayable: bool, removePending: bool,
                             profile: string, genre: string, language: string)

  /** The file system as the sync sees it: canonical names, the audio probe, whether a resolved
      path lies under the folder, and the path its bare file name would have there. */
  datatype Host = Host(canon: string -> string, probe: string -> Option<Meta>,
                       inFolder: string -> bool, byName: string -> string)

  datatype Candidate = Candidate(path: string, meta: Meta)

  // ---- Tracks -------------------------------------------------------------------------------

  predicate InScope(t: Track, p: Payload) {
    t.station == p.station && Lower(t.kind) == Lower(p.kind)
  }

  /** The rows the sync groups by path: in scope and with a path that is not blank. */
  predicate Matchable(t: Track, p: Payload) {
    InScope(t, p) && Strip(t.path) != ""
  }

  function RowKey(host: Host, t: Track): string {
    host.canon(Strip(t.path))
  }

  function Group(host: Host, p: Payload, ts: Tracks, key: string): set<int> {
    set id | id in ts && Matchable(ts[id], p) && RowKey(host, ts[id]) == key
  }

  function ActiveScope(ts: Tracks, p: Payload): set<int> {
    set id | id in ts && InScope(ts[id], p) && ts[id].active
  }

  function IdOrder(ts: Tracks): map<int, int> {
    map id | id in ts :: 0
  }

  function FreshMeta(m: Meta, p: Payload): Meta {
    m.(album := Strip(m.album),
       genre := Strip(if m.genre != "" then m.genre else p.genre),
       language := Strip(if m.language != "" then m.language else p.language),
       recording := Strip(m.recording))
  }

  /** An update keeps an old tag where the new one is empty. */
  function MergedMeta(was: Meta, m: Meta, p: Payload): Meta {
    var n := FreshMeta(m, p);
    Meta(n.title, n.artist,
         if n.album != "" then n.album else was.album,
         if n.genre != "" then n.genre else was.genre,
         if n.language != "" then n.language else was.language,
         n.duration,
         if n.recording != "" then n.recording else was.recording)
  }

  function Deactivate(ts: Tracks, ids: set<int>): Tracks {
    map id | id in ts :: if id in ids then ts[id].(active := false) else ts[id]
  }

  function Elements(s: seq<int>): set<int> {
    set x | x in s
  }

  predicate Distinct(s: seq<int>) {
    forall i, j :: 0 <= i < j < |s| ==> s[i] != s[j]
  }

  function KeysUpTo(host: Host, cands: seq<Candidate>, n: nat): set<string>
    requires n <= |cands|
  {
    set i | 0 <= i < n :: host.canon(cands[i].path)
  }

  predicate DistinctKeys(host: Host, cands: seq<Candidate>) {
    forall i, j :: 0 <= i < j < |cands| ==> host.canon(cands[i].path) != host.canon(cands[j].path)
  }

  /** Resolved paths of audio files: absolute, so never blank at either end. */
  predicate CleanPaths(cands: seq<Candidate>) {
    forall c :: c in cands ==> c.path != "" && Stripped(c.path)
  }

  predicate Claimed(host: Host, p: Payload, t: Track, keys: set<string>) {
    Matchable(t, p) && RowKey(host, t) in keys
  }

  function ClaimedIds(host: Host, p: Payload, ts: Tracks, keys: set<string>): set<int> {
    set id | id in ts && Claimed(host, p, ts[id], keys)
  }

  /** Target row `id` holds candidate `c`: updated in place if the path was known, inserted if not. */
  predicate Placed(host: Host, p: Payload, before: Tracks, ts: Tracks, c: Candidate, id: int) {
    && id in ts
    && var group := Group(host, p, before, host.canon(c.path));
       if group == {} then
         id !in before && ts[id] == Track(p.station, p.kind, c.path, true, FreshMeta(c.meta, p))
       else
         && id == First(group, IdOrder(before))
         && ts[id] == Track(p.station, p.kind, c.path, true, MergedMeta(before[id].meta, c.meta, p))
  }

  predicate AllPlaced(host: Host, p: Payload, before: Tracks, ts: Tracks, cands: seq<Candidate>, targets: seq<int>)
    requires |targets| <= |cands|
  {
    forall j :: 0 <= j < |targets| ==> Placed(host, p, before, ts, cands[j], targets[j])
  }

  /** Apart from the targets, rows with a claimed path are inactive and all others as before. */
  predicate RestSettled(host: Host, p: Payload, before: Tracks, ts: Tracks, keys: set<string>, targets: seq<int>) {
    forall id :: id in before && id !in targets ==>
      id in ts && ts[id] == if Claimed(host, p, before[id], keys) then before[id].(active := false) else before[id]
  }

  /** The track table once the first |targets| candidates are in: every other row that shares a
      placed path is inactive, every row that shares none is as it was. */
  predicate Progress(host: Host, p: Payload, before: Tracks, ts: Tracks, cands: seq<Candidate>, targets: seq<int>) {
    && |targets| <= |cands|
    && ts.Keys == before.Keys + Elements(targets)
    && Distinct(targets)
    && AllPlaced(host, p, before, ts, cands, targets)
    && RestSettled(host, p, before, ts, KeysUpTo(host, cands, |targets|), targets)
  }

  lemma PlacedIsActive(host: Host, p: Payload, before: Tracks, ts: Tracks, cands: seq<Candidate>, targets: seq<int>)
    requires Progress(host, p, before, ts, cands, targets)
    ensures Elements(targets) <= ActiveScope(ts, p)
  {}

  /** Which rows are active: the targets, and what was active and shares no candidate's path. */
  lemma ActiveAfter(host: Host, p: Payload, before: Tracks, ts: Tracks, cands: seq<Candidate>, targets: seq<int>)
    requires Progress(host, p, before, ts, cands, targets)
    ensures var claimed := ClaimedIds(host, p, before, KeysUpTo(host, cands, |targets|));
            && ActiveScope(ts, p) == Elements(targets) + (ActiveScope(before, p) - claimed)
            && forall id :: id in targets && id in before ==> id in claimed
  {
    PlacedIsActive(host, p, before, ts, cands, targets);
    forall id | id in targets && id in before
      ensures id in ClaimedIds(host, p, before, KeysUpTo(host, cands, |targets|))
    {
      var j :| 0 <= j < |targets| && targets[j] == id;
      assert Placed(host, p, before, ts, cands[j], targets[j]);
      assert id in Group(host, p, before, host.canon(cands[j].path));
    }
    var claimed := ClaimedIds(host, p, before, KeysUpTo(host, cands, |targets|));
    forall id ensures id in ActiveScope(ts, p) <==> id in Elements(targets) || id in ActiveScope(before, p) - claimed {
      if id in ts && id !in targets {
        assert id in Elements(targets) + before.Keys;
        assert id in claimed <==> Claimed(host, p, before[id], KeysUpTo(host, cands, |targets|));
      }
    }
  }

  /** The rows of `ids` that were active. */
  function ActiveOf(ts: Tracks, ids: set<int>): set<int> {
    set id | id in ids && id in ts && ts[id].active
  }

  /** One candidate's writes: row `id` is the target, the rest of the group goes inactive. */
  predicate Displaces(ts: Tracks, after: Tracks, group: set<int>, id: int) {
    && after.Keys == ts.Keys + {id}
    && forall x :: x in ts && x != id ==> after[x] == if x in group then ts[x].(active := false) else ts[x]
  }

  lemma KeysStep(host: Host, cands: seq<Candidate>, n: nat)
    requires n < |cands|
    ensures KeysUpTo(host, cands, n + 1) == KeysUpTo(host, cands, n) + {host.canon(cands[n].path)}
  {}

  /** Placing one more candidate keeps `Progress`. */
  lemma PlaceOne(host: Host, p: Payload, before: Tracks, ts: Tracks, cands: seq<Candidate>, targets: seq<int>,
                 group: set<int>, id: int, after: Tracks)
    requires Progress(host, p, before, ts, cands, targets) && |targets| < |cands| && DistinctKeys(host, cands)
    requires group == Group(host, p, before, host.canon(cands[|targets|].path))
    requires Placed(host, p, before, after, cands[|targets|], id)
    requires Displaces(ts, after, group, id) && (group == {} ==> id !in ts)
    ensures Progress(host, p, before, after, cands, targets + [id])
  {
    var key := host.canon(cands[|targets|].path);
    assert Distinct(targets + [id]) && after.Keys == before.Keys + Elements(targets + [id])
           && AllPlaced(host, p, before, after, cands, targets + [id]) by {
      TargetsOutside(host, p, before, ts, cands, targets, group);
      NewTarget(ts, after, group, targets, id);
      AllPlacedOne(host, p, before, ts, cands, targets, id, after);
    }
    assert RestSettled(host, p, before, after, KeysUpTo(host, cands, |targets| + 1), targets + [id]) by {
      KeysStep(host, cands, |targets|);
      RestSettlesOne(host, p, before, ts, KeysUpTo(host, cands, |targets|), key, targets, id, after);
    }
    assert |targets + [id]| == |targets| + 1;
  }

  lemma NewTarget(ts: Tracks, after: Tracks, group: set<int>, targets: seq<int>, id: int)
    requires Displaces(ts, after, group, id) && (if group == {} then id !in ts else id in group)
    requires Elements(targets) <= ts.Keys && Distinct(targets) && forall x :: x in group ==> x !in targets
    ensures Elements(targets + [id]) == Elements(targets) + {id} && Distinct(targets + [id])
    ensures forall x :: x in targets ==> x in after && x in ts && after[x] == ts[x]
  {}

  lemma RestSettlesOne(host: Host, p: Payload, before: Tracks, ts: Tracks, keys: set<string>, key: string,
                       targets: seq<int>, id: int, after: Tracks)
    requires RestSettled(host, p, before, ts, keys, targets)
    requires Displaces(ts, after, Group(host, p, before, key), id)
    ensures RestSettled(host, p, before, after, keys + {key}, targets + [id])
  {}

  lemma AllPlacedOne(host: Host, p: Payload, before: Tracks, ts: Tracks, cands: seq<Candidate>, targets: seq<int>,
                     id: int, after: Tracks)
    requires |targets| < |cands|
    requires AllPlaced(host, p, before, ts, cands, targets)
    requires Placed(host, p, before, after, cands[|targets|], id)
    requires forall x :: x in targets ==> x in after && x in ts && after[x] == ts[x]
    ensures AllPlaced(host, p, before, after, cands, targets + [id])
  {}

  /** Earlier targets never lie in the group of a later candidate. */
  lemma TargetsOutside(host: Host, p: Payload, before: Tracks, ts: Tracks, cands: seq<Candidate>, targets: seq<int>,
                       group: set<int>)
    requires Progress(host, p, before, ts, cands, targets) && |targets| < |cands| && DistinctKeys(host, cands)
    requires group == Group(host, p, before, host.canon(cands[|targets|].path))
    ensures forall x :: x in group ==> x !in targets
  {}

  /** The active rows a further candidate claims are those of its group, all of them new. */
  lemma ClaimOne(host: Host, p: Payload, before: Tracks, cands: seq<Candidate>, n: nat)
    requires n < |cands| && DistinctKeys(host, cands)
    ensures var group := Group(host, p, before, host.canon(cands[n].path));
            |ActiveOf(before, ClaimedIds(host, p, before, KeysUpTo(host, cands, n + 1)))|
              == |ActiveOf(before, ClaimedIds(host, p, before, KeysUpTo(host, cands, n)))| + |ActiveOf(before, group)|
  {
    var group := Group(host, p, before, host.canon(cands[n].path));
    var old' := ActiveOf(before, ClaimedIds(host, p, before, KeysUpTo(host, cands, n)));
    assert KeysUpTo(host, cands, n + 1) == KeysUpTo(host, cands, n) + {host.canon(cands[n].path)};
    assert host.canon(cands[n].path) !in KeysUpTo(host, cands, n);
    var all := ActiveOf(before, ClaimedIds(host, p, before, KeysUpTo(host, cands, n + 1)));
    forall id ensures id in all <==> id in old' || id in ActiveOf(before, group) {
      assert id in before ==> (Claimed(host, p, before[id], KeysUpTo(host, cands, n + 1)) <==>
        Claimed(host, p, before[id], KeysUpTo(host, cands, n)) || id in group);
    }
    assert all == old' + ActiveOf(before, group);
    forall id | id in old' ensures id !in ActiveOf(before, group) {
      assert Claimed(host, p, before[id], KeysUpTo(host, cands, n));
    }
  }

  // ---- The queues behind the library --------------------------------------------------------

  function PendingIds(t: Table, station: int): set<int> {
    set id | id in t && t[id].station == station && t[id].status == Pending
  }

  function Positions(t: Table): map<int, int> {
    map id | id in t :: t[id].position
  }

  /** Pending rows of the station in queue order. */
  function QueueOrder(t: Table, station: int): seq<int> {
    Ordered(PendingIds(t, station), Positions(t))
  }

  function PendingOf(t: Table, station: int, stale: set<int>): set<int> {
    set id | id in PendingIds(t, station) && t[id].track in stale
  }

  function ProgramOf(items: Program, station: int, stale: set<int>): set<int> {
    set id | id in items && items[id].station == station && items[id].track in stale
  }

  /** `after` renumbers the pending rows of `before` 1..n in queue order and changes nothing else. */
  predicate Renumbered(before: Table, after: Table, station: int) {
    && after.Keys == before.Keys
    && (forall id :: id in before && id !in PendingIds(before, station) ==> after[id] == before[id])
    && NumberedFrom(before, after, QueueOrder(before, station), 1)
  }

  predicate NumberedFrom(before: Table, after: Table, order: seq<int>, n: int) {
    order != [] ==>
      && order[0] in before && order[0] in after
      && after[order[0]] == before[order[0]].(position := n)
      && NumberedFrom(before, after, order[1..], n + 1)
  }

  lemma {:induction false} NumberedAt(before: Table, after: Table, order: seq<int>, n: int)
    ensures NumberedFrom(before, after, order, n) <==>
            forall k :: 0 <= k < |order| ==>
              order[k] in before && order[k] in after && after[order[k]] == before[order[k]].(position := n + k)
  {
    if order != [] {
      var rest := order[1..];
      NumberedAt(before, after, rest, n + 1);
      if NumberedFrom(before, after, order, n) {
        forall k | 0 <= k < |order|
          ensures order[k] in before && order[k] in after && after[order[k]] == before[order[k]].(position := n + k)
        {
          assert k > 0 ==> order[k] == rest[k - 1];
        }
      } else if order[0] in before && order[0] in after && after[order[0]] == before[order[0]].(position := n) {
        var k :| 0 <= k < |rest| && !(rest[k] in before && rest[k] in after && after[rest[k]] == before[rest[k]].(position := n + 1 + k));
        assert order[k + 1] == rest[k];
      }
    }
  }

  /** Renumbering keeps the order the listeners hear. */
  lemma RenumberedKeepsOrder(before: Table, after: Table, station: int)
    requires Renumbered(before, after, station)
    ensures PendingIds(after, station) == PendingIds(before, station)
    ensures QueueOrder(after, station) == QueueOrder(before, station)
  {
    var order := QueueOrder(before, station);
    NumberedAt(before, after, order, 1);
    forall id ensures id in PendingIds(after, station) <==> id in PendingIds(before, station) {
      if id in PendingIds(before, station) {
        assert id in order;
        var k :| 0 <= k < |order| && order[k] == id;
      }
    }
    NumberedInOrder(before, after, order, 1);
    OrderedUnique(PendingIds(after, station), Positions(after), order);
  }

  lemma {:induction false} NumberedInOrder(before: Table, after: Table, order: seq<int>, n: int)
    requires forall x :: x in order ==> x in after
    requires NumberedFrom(before, after, order, n)
    ensures InOrder(order, Positions(after))
  {
    if order != [] {
      NumberedInOrder(before, after, order[1..], n + 1);
      NumberedAt(before, after, order, n);
      forall x | x in order[1..] ensures Before(Positions(after), order[0], x) {
        var k :| 0 <= k < |order[1..]| && order[1..][k] == x;
        assert order[k + 1] == x;
      }
    }
  }

  datatype Counts = Counts(added: nat, reactivated: nat, retained: nat, duplicates: nat)
  {
    function Plus(c: Counts): Counts {
      Counts(added + c.added, reactivated + c.reactivated, retained + c.retained, duplicates + c.duplicates)
    }
  }

  datatype Report = Report(counts: Counts, deactivated: nat, pendingRemoved: nat,
                           programRemoved: nat, schedulesRemoved: nat)

  /** Where the write phase raises, if it does. */
  datatype Fault = NoFault | AtCandidate(index: nat) | InCleanup | AtCommit | AtReadBack | AtActiveFiles

  /** The write loop raises at candidate `i`: its metadata is missing, or a statement fails. */
  predicate RaisesAt(missing: Option<nat>, fault: Fault, i: int) {
    (missing.Some? && missing.value == i) || (fault.AtCandidate? && fault.index == i)
  }

  lemma RaisesExactly(n: nat, missing: Option<nat>, fault: Fault)
    requires missing.Some? ==> missing.value < n
    ensures (exists i :: 0 <= i < n && RaisesAt(missing, fault, i)) <==>
            missing.Some? || (fault.AtCandidate? && fault.index < n)
  {
    assert missing.Some? ==> RaisesAt(missing, fault, missing.value);
    assert fault.AtCandidate? ==> RaisesAt(missing, fault, fault.index);
  }

  /** Track ids are handed out in increasing order, so the next one is new. */
  predicate FreshIds(lib: Library) {
    forall id :: id in lib.tracks ==> id < lib.nextTrack
  }

  function ProfileSettings(settings: map<(int, string), string>, p: Payload): map<(int, string), string> {
    var prefix := if p.kind == "music" then "library" else p.kind + "_library";
    var folderKey := if p.kind == "music" then "music_library_folder" else p.kind + "_library_folder";
    settings[(p.station, folderKey) := p.folder]
            [(p.station, prefix + "_management_mode") := if p.replace then "replace" else "merge"]
            [(p.station, prefix + "_profile_label") := Strip(p.profile)]
            [(p.station, prefix + "_default_genre") := Strip(p.genre)]
            [(p.station, prefix + "_default_language") := Strip(p.language)]
  }

  function ActiveFiles(settings: map<(int, string), string>, p: Payload, n: nat): map<(int, string), string> {
    settings[(p.station, (if p.kind == "music" then "library" else p.kind + "_library") + "_active_files") := Decimal(n)]
  }

  /** Rows deactivated by a replace: active, in scope, and not a target. */
  function Stale(p: Payload, placed: Tracks, targets: seq<int>): set<int> {
    if p.replace then ActiveScope(placed, p) - Elements(targets) else {}
  }

  predicate QueuesCleaned(p: Payload, before: Library, after: Library, stale: set<int>, rep: Report) {
    if stale == {} || !p.removePending then
      && after.queue == before.queue && after.program == before.program && after.schedules == before.schedules
      && rep.pendingRemoved == 0 && rep.programRemoved == 0 && rep.schedulesRemoved == 0
    else
      && Renumbered(before.queue - PendingOf(before.queue, p.station, stale), after.queue, p.station)
      && after.program == before.program - ProgramOf(before.program, p.station, stale)
      && after.schedules == before.schedules - PendingOf(before.schedules, p.station, stale)
      && rep.pendingRemoved == |PendingOf(before.queue, p.station, stale)|
      && rep.programRemoved == |ProgramOf(before.program, p.station, stale)|
      && rep.schedulesRemoved == |PendingOf(before.schedules, p.station, stale)|
  }

  /** The grouping the sync builds: every path that has rows, its rows oldest first. */
  predicate IsGrouping(host: Host, p: Payload, ts: Tracks, groups: map<string, seq<int>>) {
    && (forall key :: key in groups ==> groups[key] == Ordered(Group(host, p, ts, key), IdOrder(ts)) != [])
    && (forall id :: id in ts && Matchable(ts[id], p) ==> RowKey(host, ts[id]) in groups)
  }

  /** What placing one candidate adds to the counters. */
  function CountsOf(before: Tracks, group: set<int>, id: int): Counts
    requires group != {} ==> id in before
  {
    if group == {} then Counts(1, 0, 0, 0)
    else if before[id].active then Counts(0, 0, 1, |ActiveOf(before, group - {id})|)
    else Counts(0, 1, 0, |ActiveOf(before, group - {id})|)
  }

  /** The counters once the first |targets| candidates are in, against the rows they describe. */
  predicate Counted(host: Host, p: Payload, before: Tracks, cands: seq<Candidate>, targets: seq<int>, counts: Counts)
    requires |targets| <= |cands|
  {
    && counts.added == |Elements(targets) - before.Keys|
    && counts.retained == |ActiveOf(before, Elements(targets))|
    && counts.added + counts.reactivated + counts.retained == |targets|
    && counts.retained + counts.duplicates
         == |ActiveOf(before, ClaimedIds(host, p, before, KeysUpTo(host, cands, |targets|)))|
  }

  /** The write loop so far. */
  predicate Placing(host: Host, p: Payload, before: Tracks, ts: Tracks, cands: seq<Candidate>, targets: seq<int>, counts: Counts) {
    Progress(host, p, before, ts, cands, targets) && Counted(host, p, before, cands, targets, counts)
  }

  /** A committed sync: `placed` is the track table once all candidates are in. */
  predicate Synced(host: Host, p: Payload, before: Library, placed: Tracks, after: Library,
                   cands: seq<Candidate>, targets: seq<int>, rep: Report)
  {
    && |targets| == |cands|
    && Placing(host, p, before.tracks, placed, cands, targets, rep.counts)
    && after.tracks == Deactivate(placed, Stale(p, placed, targets))
    && rep.deactivated == |Stale(p, placed, targets)|
    && QueuesCleaned(p, before, after, Stale(p, placed, targets), rep)
    && after.settings == ProfileSettings(before.settings, p)
  }

  /** The canonical paths of the active rows, as the final check reads them. */
  function ActivePaths(host: Host, p: Payload, ts: Tracks): set<string> {
    set id | id in ActiveScope(ts, p) && Strip(ts[id].path) != "" :: host.canon(ts[id].path)
  }

  predicate Matches(host: Host, p: Payload, ts: Tracks, cands: seq<Candidate>) {
    var active, expected := ActivePaths(host, p, ts), KeysUpTo(host, cands, |cands|);
    if p.replace then active == expected else expected <= active
  }

  datatype Outcome = Refused(code: int) | Raised | Mismatch(report: Report) | RaisedLate(report: Report)
                   | Verified(report: Report, activeFiles: nat)

  // ---- Reading the folder -------------------------------------------------------------------

  /** One directory entry: is it an audio file, and what it resolves to if that works. */
  datatype Entry = Entry(audio: bool, resolved: Option<string>)

  const MAX_FILES := 5000

  datatype Plan = Rejected(code: int) | Plan(cands: seq<Candidate>, missing: Option<nat>)

  predicate CleanListing(listing: seq<Entry>) {
    forall e :: e in listing && e.resolved.Some? ==> e.resolved.value != "" && Stripped(e.resolved.value)
  }

  function PathKeys(host: Host, paths: seq<string>): set<string> {
    set q | q in paths :: host.canon(q)
  }

  /** The resolved audio files, the first of each canonical path. */
  function Paths(host: Host, listing: seq<Entry>): (paths: seq<string>)
    ensures CleanListing(listing) ==> forall q :: q in paths ==> q != "" && Stripped(q)
  {
    if listing == [] then []
    else
      var front, e := Paths(host, listing[..|listing| - 1]), listing[|listing| - 1];
      if e.audio && e.resolved.Some? && host.canon(e.resolved.value) !in PathKeys(host, front)
      then front + [e.resolved.value] else front
  }

  /** The key an unplayable file is struck off under: rebuilt from its path below the folder, or from
      its bare name when it resolves elsewhere. */
  function StruckKey(host: Host, q: string): string {
    host.canon(if host.inFolder(q) then q else host.byName(q))
  }

  function StruckKeys(host: Host, paths: seq<string>): set<string> {
    set q | q in paths && host.probe(q).None? :: StruckKey(host, q)
  }

  function Keep(host: Host, paths: seq<string>, struck: set<string>): seq<string> {
    if paths == [] then []
    else
      var front, q := Keep(host, paths[..|paths| - 1], struck), paths[|paths| - 1];
      if host.canon(q) in struck then front else front + [q]
  }

  function Describe(host: Host, kept: seq<string>): seq<Candidate> {
    seq(|kept|, i requires 0 <= i < |kept| => Candidate(kept[i],
      match host.probe(kept[i]) case Some(m) => m case None => Meta("", "", "", "", "", 0.0, "")))
  }

  /** The index of the first candidate the probe rejected. */
  predicate IsMissing(host: Host, kept: seq<string>, missing: Option<nat>) {
    match missing
    case None => forall i :: 0 <= i < |kept| ==> host.probe(kept[i]).Some?
    case Some(k) => k < |kept| && host.probe(kept[k]).None? && forall i :: 0 <= i < k ==> host.probe(kept[i]).Some?
  }

  predicate AllPlayable(host: Host, paths: seq<string>) {
    forall q :: q in paths ==> host.probe(q).Some?
  }

  /** Which answer the folder gets, before any write. */
  predicate Answers(host: Host, p: Payload, listing: seq<Entry>, plan: Plan) {
    var paths := Paths(host, listing);
    var kept := Keep(host, paths, StruckKeys(host, paths));
    if paths == [] then plan == Rejected(400)
    else if |paths| > MAX_FILES then plan == Rejected(413)
    else if !AllPlayable(host, paths) && (!p.skipUnplayable || kept == []) then plan == Rejected(422)
    else plan.Plan? && plan.cands == Describe(host, kept) && IsMissing(host, kept, plan.missing)
  }

  predicate DistinctPaths(host: Host, paths: seq<string>) {
    forall i, j :: 0 <= i < j < |paths| ==> host.canon(paths[i]) != host.canon(paths[j])
  }

  lemma {:induction false} PathsDistinct(host: Host, listing: seq<Entry>)
    ensures DistinctPaths(host, Paths(host, listing))
  {
    if listing != [] {
      var front, e := Paths(host, listing[..|listing| - 1]), listing[|listing| - 1];
      PathsDistinct(host, listing[..|listing| - 1]);
      if e.audio && e.resolved.Some? && host.canon(e.resolved.value) !in PathKeys(host, front) {
        forall i | 0 <= i < |front| ensures host.canon(front[i]) != host.canon(e.resolved.value) {
          assert front[i] in front;
        }
        assert Paths(host, listing) == front + [e.resolved.value];
      }
    }
  }

  lemma {:induction false} KeepMembers(host: Host, paths: seq<string>, struck: set<string>)
    requires DistinctPaths(host, paths)
    ensures var kept := Keep(host, paths, struck);
            && (forall q :: q in kept <==> q in paths && host.canon(q) !in struck)
            && DistinctPaths(host, kept)
  {
    if paths != [] {
      var front, q := paths[..|paths| - 1], paths[|paths| - 1];
      assert paths == front + [q];
      KeepMembers(host, front, struck);
      LastIsNew(host, front, q, Keep(host, front, struck));
    }
  }

  lemma LastIsNew(host: Host, front: seq<string>, q: string, kept: seq<string>)
    requires DistinctPaths(host, front + [q]) && DistinctPaths(host, kept) && forall x :: x in kept ==> x in front
    ensures DistinctPaths(host, kept + [q])
  {
    forall i | 0 <= i < |kept| ensures host.canon(kept[i]) != host.canon(q) {
      assert kept[i] in kept;
      var k :| 0 <= k < |front| && front[k] == kept[i];
      assert (front + [q])[k] == front[k] && (front + [q])[|front|] == q;
    }
  }

  lemma DescribeMembers(host: Host, kept: seq<string>)
    ensures forall q :: q in kept <==> exists c :: c in Describe(host, kept) && c.path == q
  {
    var cands := Describe(host, kept);
    forall c | c in cands ensures c.path in kept {
      var i :| 0 <= i < |cands| && cands[i] == c;
      assert kept[i] in kept;
    }
    forall q | q in kept ensures exists c :: c in cands && c.path == q {
      var i :| 0 <= i < |kept| && kept[i] == q;
      assert cands[i] in cands;
    }
  }

  /** What a plan promises the write phase: distinct, clean paths; exactly the listed files not
      struck off; and no candidate without metadata exactly when every unplayable file was struck
      off, which holds when all of them lie under the folder. */
  lemma PlanIsExact(host: Host, p: Payload, listing: seq<Entry>, plan: Plan)
    requires Answers(host, p, listing, plan) && plan.Plan? && CleanListing(listing)
    ensures DistinctKeys(host, plan.cands) && CleanPaths(plan.cands)
    ensures var paths := Paths(host, listing);
            && (forall q :: q in paths && host.canon(q) !in StruckKeys(host, paths) <==>
                  exists c :: c in plan.cands && c.path == q)
            && (plan.missing.None? <==>
                  forall q :: q in paths && host.probe(q).None? ==> host.canon(q) in StruckKeys(host, paths))
            && ((forall q :: q in paths && host.probe(q).None? ==> host.inFolder(q)) ==> plan.missing.None?)
  {
    var paths := Paths(host, listing);
    var struck := StruckKeys(host, paths);
    var kept := Keep(host, paths, struck);
    PathsDistinct(host, listing);
    KeepMembers(host, paths, struck);
    DescribeMembers(host, kept);
    forall q | q in paths && host.probe(q).None? && host.inFolder(q) ensures host.canon(q) in struck {
      assert StruckKey(host, q) in struck;
    }
    if plan.missing.None? {
      forall q | q in kept ensures host.probe(q).Some? {
        var i :| 0 <= i < |kept| && kept[i] == q;
      }
    } else {
      assert kept[plan.missing.value] in kept;
    }
  }

  /** The listing loop: the audio files in order, each canonical path once. */
  method ListPaths(host: Host, listing: seq<Entry>) returns (paths: seq<string>)
    ensures paths == Paths(host, listing)
  {
    paths := [];
    for i := 0 to |listing|
      invariant paths == Paths(host, listing[..i])
    {
      assert listing[..i + 1][..i] == listing[..i];
      var e := listing[i];
      if e.audio && e.resolved.Some? && host.canon(e.resolved.value) !in PathKeys(host, paths) {
        paths := paths + [e.resolved.value];
      }
    }
    assert listing[..|listing|] == listing;
  }

  /** The probing loop: the keys struck off for unplayable files. */
  method ProbePaths(host: Host, paths: seq<string>) returns (struck: set<string>, unplayable: bool)
    ensures struck == StruckKeys(host, paths)
    ensures unplayable <==> !AllPlayable(host, paths)
  {
    struck, unplayable := {}, false;
    for i := 0 to |paths|
      invariant struck == StruckKeys(host, paths[..i])
      invariant unplayable <==> !AllPlayable(host, paths[..i])
    {
      assert paths[..i + 1] == paths[..i] + [paths[i]];
      if host.probe(paths[i]).None? {
        struck, unplayable := struck + {StruckKey(host, paths[i])}, true;
      }
    }
    assert paths[..|paths|] == paths;
  }

  /** The filter, and the first survivor without metadata. */
  method KeepPaths(host: Host, paths: seq<string>, struck: set<string>) returns (kept: seq<string>, missing: Option<nat>)
    ensures kept == Keep(host, paths, struck) && IsMissing(host, kept, missing)
  {
    kept := [];
    for i := 0 to |paths|
      invariant kept == Keep(host, paths[..i], struck)
    {
      assert paths[..i + 1][..i] == paths[..i];
      if host.canon(paths[i]) !in struck {
        kept := kept + [paths[i]];
      }
    }
    assert paths[..|paths|] == paths;
    missing := None;
    for i := 0 to |kept|
      invariant missing.None? ==> forall k :: 0 <= k < i ==> host.probe(kept[k]).Some?
      invariant missing.Some? ==> IsMissing(host, kept, missing)
    {
      if missing.None? && host.probe(kept[i]).None? {
        missing := Some(i);
      }
    }
  }

  /** Collects and validates the folder before the first write. */
  method ReadFolder(host: Host, p: Payload, listing: seq<Entry>) returns (plan: Plan)
    ensures Answers(host, p, listing, plan)
  {
    var paths := ListPaths(host, listing);
    if paths == [] {
      return Rejected(400);
    }
    if |paths| > MAX_FILES {
      return Rejected(413);
    }
    var struck, unplayable := ProbePaths(host, paths);
    if unplayable && !p.skipUnplayable {
      return Rejected(422);
    }
    var kept, missing := KeepPaths(host, paths, struck);
    if unplayable && kept == [] {
      return Rejected(422);
    }
    plan := Plan(Describe(host, kept), missing);
  }

  // ---- The connection -----------------------------------------------------------------------

  class Connection {
    /** What this connection reads, uncommitted writes included. */
    var lib: Library

    constructor (lib: Library)
      ensures this.lib == lib
    {
      this.lib := lib;
    }

    /** Deactivates the extra rows of one path; `before` is what the sync read at the start. */
    method RetireDuplicates(before: Tracks, ids: seq<int>) returns (retired: nat)
      requires Distinct(ids) && forall k :: 0 <= k < |ids| ==> ids[k] in before && ids[k] in lib.tracks
      modifies this
      ensures lib == old(lib).(tracks := Deactivate(old(lib.tracks), Elements(ids)))
      ensures retired == |ActiveOf(before, Elements(ids))|
    {
      retired := 0;
      assert Deactivate(lib.tracks, Elements(ids[..0])) == lib.tracks;
      for i := 0 to |ids|
        invariant lib == old(lib).(tracks := Deactivate(old(lib.tracks), Elements(ids[..i])))
        invariant retired == |ActiveOf(before, Elements(ids[..i]))|
      {
        OneMore(before, ids, i);
        if before[ids[i]].active {
          retired := retired + 1;
        }
        DeactivateOne(old(lib.tracks), Elements(ids[..i]), ids[i]);
        lib := lib.(tracks := lib.tracks[ids[i] := lib.tracks[ids[i]].(active := false)]);
      }
      assert ids[..|ids|] == ids;
    }

    /** A known path: its oldest row takes the file, its other rows retire. */
    method UpdateTrack(host: Host, p: Payload, before: Tracks, c: Candidate, matches: seq<int>)
      returns (id: int, counts: Counts)
      requires var group := Group(host, p, before, host.canon(c.path));
               && group != {} && matches == Ordered(group, IdOrder(before))
               && forall x :: x in group ==> x in lib.tracks && lib.tracks[x].meta == before[x].meta
      modifies this
      ensures lib == old(lib).(tracks := lib.tracks)
      ensures Placed(host, p, before, lib.tracks, c, id)
      ensures id in before && Displaces(old(lib.tracks), lib.tracks, Group(host, p, before, host.canon(c.path)), id)
      ensures counts == CountsOf(before, Group(host, p, before, host.canon(c.path)), id)
    {
      ghost var group, was := Group(host, p, before, host.canon(c.path)), lib.tracks;
      SplitMatches(host, p, before, host.canon(c.path));
      id := matches[0];
      UpdatePlaces(host, p, before, was, c, id);
      var merged := MergedMeta(lib.tracks[id].meta, c.meta, p);
      lib := lib.(tracks := lib.tracks[id := Track(p.station, p.kind, c.path, true, merged)]);
      var retired := RetireDuplicates(before, matches[1..]);
      assert Elements(matches[1..]) == group - {id};
      counts := if before[id].active then Counts(0, 0, 1, retired) else Counts(0, 1, 0, retired);
    }

    method InsertTrack(p: Payload, c: Candidate) returns (id: int)
      requires FreshIds(lib)
      modifies this
      ensures FreshIds(lib) && id == old(lib.nextTrack)
      ensures lib == old(lib).(tracks := lib.tracks, nextTrack := id + 1)
      ensures lib.tracks == old(lib.tracks)[id := Track(p.station, p.kind, c.path, true, FreshMeta(c.meta, p))]
    {
      id := lib.nextTrack;
      lib := lib.(tracks := lib.tracks[id := Track(p.station, p.kind, c.path, true, FreshMeta(c.meta, p))],
                  nextTrack := id + 1);
    }

    /** Writes one candidate. */
    method Upsert(host: Host, p: Payload, before: Tracks, c: Candidate, groups: map<string, seq<int>>)
      returns (id: int, counts: Counts)
      requires IsGrouping(host, p, before, groups)
      requires FreshIds(lib) && before.Keys <= lib.tracks.Keys
      requires forall x :: x in Group(host, p, before, host.canon(c.path)) ==> lib.tracks[x].meta == before[x].meta
      modifies this
      ensures FreshIds(lib)
      ensures lib == old(lib).(tracks := lib.tracks, nextTrack := lib.nextTrack)
      ensures Placed(host, p, before, lib.tracks, c, id)
      ensures var group := Group(host, p, before, host.canon(c.path));
              && Displaces(old(lib.tracks), lib.tracks, group, id) && (group == {} ==> id !in old(lib.tracks))
              && (group != {} ==> id in before) && counts == CountsOf(before, group, id)
    {
      var key := host.canon(c.path);
      GroupKnown(host, p, before, groups, key);
      if key in groups {
        id, counts := UpdateTrack(host, p, before, c, groups[key]);
      } else {
        InsertPlaces(host, p, before, lib.tracks, c, lib.nextTrack);
        id := InsertTrack(p, c);
        counts := Counts(1, 0, 0, 0);
      }
    }

    /** One round of the write loop. */
    method PlaceNext(host: Host, p: Payload, before: Tracks, ghost cands: seq<Candidate>, groups: map<string, seq<int>>,
                     cand: Candidate, ghost targets: seq<int>, counts: Counts)
      returns (id: int, total: Counts)
      requires FreshIds(lib) && DistinctKeys(host, cands) && IsGrouping(host, p, before, groups)
      requires |targets| < |cands| && cand == cands[|targets|] && Placing(host, p, before, lib.tracks, cands, targets, counts)
      modifies this
      ensures FreshIds(lib) && lib == old(lib).(tracks := lib.tracks, nextTrack := lib.nextTrack)
      ensures Placing(host, p, before, lib.tracks, cands, targets + [id], total)
    {
      GroupUntouched(host, p, before, lib.tracks, cands, targets);
      var more: Counts;
      id, more := Upsert(host, p, before, cand, groups);
      total := counts.Plus(more);
      PlacingOne(host, p, before, old(lib.tracks), cands, targets, counts, id, lib.tracks);
    }

    /** The write loop over the candidates; a missing metadata entry or a failing statement raises. */
    method PlaceAll(host: Host, p: Payload, cands: seq<Candidate>, missing: Option<nat>, fault: Fault)
      returns (ok: bool, targets: seq<int>, counts: Counts)
      requires FreshIds(lib) && DistinctKeys(host, cands)
      modifies this
      ensures FreshIds(lib) && lib == old(lib).(tracks := lib.tracks, nextTrack := lib.nextTrack)
      ensures ok <==> forall i :: 0 <= i < |cands| ==> !RaisesAt(missing, fault, i)
      ensures ok ==> |targets| == |cands| && Placing(host, p, old(lib.tracks), lib.tracks, cands, targets, counts)
    {
      var before := lib.tracks;
      var groups := GroupRows(host, p, before);
      targets, counts := [], Counts(0, 0, 0, 0);
      NothingPlaced(host, p, before, cands);
      for i := 0 to |cands|
        invariant FreshIds(lib) && lib == old(lib).(tracks := lib.tracks, nextTrack := lib.nextTrack)
        invariant |targets| == i && Placing(host, p, before, lib.tracks, cands, targets, counts)
        invariant forall k :: 0 <= k < i ==> !RaisesAt(missing, fault, k)
      {
        if RaisesAt(missing, fault, i) {
          return false, targets, counts;
        }
        var id, total := PlaceNext(host, p, before, cands, groups, cands[i], targets, counts);
        targets, counts := targets + [id], total;
      }
      ok := true;
    }

    /** A replace deactivates what is active and not a target, then cleans the queues behind it. */
    method RetireStale(p: Payload, targets: seq<int>) returns (rep: Report)
      modifies this
      ensures var stale := Stale(p, old(lib.tracks), targets);
              && lib == old(lib).(tracks := Deactivate(old(lib.tracks), stale), queue := lib.queue,
                                  program := lib.program, schedules := lib.schedules)
              && rep.deactivated == |stale| && rep.counts == Counts(0, 0, 0, 0)
              && QueuesCleaned(p, old(lib), lib, stale, rep)
    {
      rep := Report(Counts(0, 0, 0, 0), 0, 0, 0, 0);
      var stale := Stale(p, lib.tracks, targets);
      assert stale == {} ==> Deactivate(lib.tracks, stale) == lib.tracks;
      if stale != {} {
        lib := lib.(tracks := Deactivate(lib.tracks, stale));
        rep := rep.(deactivated := |stale|);
        if p.removePending {
          var pending := PendingOf(lib.queue, p.station, stale);
          var program := ProgramOf(lib.program, p.station, stale);
          var schedules := PendingOf(lib.schedules, p.station, stale);
          lib := lib.(queue := lib.queue - pending, program := lib.program - program,
                      schedules := lib.schedules - schedules);
          rep := rep.(pendingRemoved := |pending|, programRemoved := |program|, schedulesRemoved := |schedules|);
          ReindexPendingQueue(p.station);
        }
      }
    }

    /** The whole transaction: everything of it, or nothing. */
    method Reconcile(host: Host, p: Payload, cands: seq<Candidate>, missing: Option<nat>, fault: Fault)
      returns (rep: Option<Report>, targets: seq<int>, ghost placed: Tracks)
      requires FreshIds(lib) && DistinctKeys(host, cands)
      modifies this
      ensures rep.Some? <==> fault !in {InCleanup, AtCommit}
                             && forall i :: 0 <= i < |cands| ==> !RaisesAt(missing, fault, i)
      ensures rep.None? ==> lib == old(lib)
      ensures rep.Some? ==> Synced(host, p, old(lib), placed, lib, cands, targets, rep.value) && FreshIds(lib)
    {
      var saved := lib;
      placed := lib.tracks;
      var ok, ids, counts := PlaceAll(host, p, cands, missing, fault);
      targets := ids;
      if !ok {
        lib := saved;
        return None, targets, placed;
      }
      placed := lib.tracks;
      var report := RetireStale(p, targets);
      if fault == InCleanup || fault == AtCommit {
        lib := saved;
        return None, targets, placed;
      }
      lib := lib.(settings := ProfileSettings(lib.settings, p));
      rep := Some(report.(counts := counts));
    }

    /** The endpoint: validate, reconcile in one transaction, refill, read back. `refill` is the
        database after the queue refill, None if that raised and was rolled back. */
    method Sync(host: Host, p: Payload, listing: seq<Entry>, fault: Fault, refill: Option<Library>)
      returns (r: Outcome, ghost committed: Library, ghost placed: Tracks, ghost plan: Plan, ghost targets: seq<int>)
      requires FreshIds(lib) && CleanListing(listing)
      modifies this
      ensures Answers(host, p, listing, plan)
      ensures plan.Rejected? <==> r.Refused?
      ensures r.Refused? ==> r.code == plan.code
      ensures r.Refused? || r.Raised? ==> lib == old(lib)
      ensures r.Verified? || r.Mismatch? || r.RaisedLate? ==>
        && Synced(host, p, old(lib), placed, committed, plan.cands, targets, r.report)
        && var refilled := if refill.Some? then refill.value else committed;
           && lib == (if r.Verified? then refilled.(settings := ActiveFiles(refilled.settings, p, r.activeFiles)) else refilled)
           && (r.RaisedLate? <==> fault == AtReadBack || (fault == AtActiveFiles && Matches(host, p, refilled.tracks, plan.cands)))
           && (r.Verified? ==> Matches(host, p, refilled.tracks, plan.cands) && r.activeFiles == |ActivePaths(host, p, refilled.tracks)|)
           && (r.Mismatch? ==> !Matches(host, p, refilled.tracks, plan.cands))
      ensures r.Raised? <==>
        plan.Plan? && (plan.missing.Some? || fault in {InCleanup, AtCommit} || (fault.AtCandidate? && fault.index < |plan.cands|))
      ensures plan.Plan? ==>
        (r.Raised? <==> fault in {InCleanup, AtCommit} || exists i :: 0 <= i < |plan.cands| && RaisesAt(plan.missing, fault, i))
    {
      committed, placed, targets := lib, lib.tracks, [];
      var answer := ReadFolder(host, p, listing);
      plan := answer;
      if answer.Rejected? {
        return Refused(answer.code), committed, placed, plan, targets;
      }
      PlanIsExact(host, p, listing, answer);
      RaisesExactly(|answer.cands|, answer.missing, fault);
      var rep: Option<Report>;
      rep, targets, placed := Reconcile(host, p, answer.cands, answer.missing, fault);
      if rep.None? {
        return Raised, committed, placed, plan, targets;
      }
      committed := lib;
      if refill.Some? {
        lib := refill.value;
      }
      if fault == AtReadBack {
        return RaisedLate(rep.value), committed, placed, plan, targets;
      }
      var active := ActivePaths(host, p, lib.tracks);
      var expected := KeysUpTo(host, answer.cands, |answer.cands|);
      if !(if p.replace then active == expected else expected <= active) {
        return Mismatch(rep.value), committed, placed, plan, targets;
      }
      if fault == AtActiveFiles {
        return RaisedLate(rep.value), committed, placed, plan, targets;
      }
      lib := lib.(settings := ActiveFiles(lib.settings, p, |active|));
      r := Verified(rep.value, |active|);
    }

    /** Renumbers the pending rows one by one. */
    method ReindexPendingQueue(station: int)
      modifies this
      ensures lib == old(lib).(queue := lib.queue)
      ensures Renumbered(old(lib.queue), lib.queue, station)
    {
      var before := lib.queue;
      var rows := QueueOrder(before, station);
      NumberNone(before, station);
      for i := 0 to |rows|
        invariant lib == old(lib).(queue := lib.queue)
        invariant NumberedUpTo(before, lib.queue, rows, i)
      {
        NumberOne(before, lib.queue, rows, i);
        lib := lib.(queue := lib.queue[rows[i] := lib.queue[rows[i]].(position := i + 1)]);
      }
      NumberAll(before, lib.queue, station);
    }
  }

  lemma NothingPlaced(host: Host, p: Payload, before: Tracks, cands: seq<Candidate>)
    ensures Placing(host, p, before, before, cands, [], Counts(0, 0, 0, 0))
  {
    assert Elements([]) == {} && KeysUpTo(host, cands, 0) == {};
    assert forall id :: id in before ==> !Claimed(host, p, before[id], {});
    assert ClaimedIds(host, p, before, KeysUpTo(host, cands, 0)) == {};
    assert ActiveOf(before, {}) == {};
  }

  lemma GroupUntouched(host: Host, p: Payload, before: Tracks, ts: Tracks, cands: seq<Candidate>, targets: seq<int>)
    requires Progress(host, p, before, ts, cands, targets) && |targets| < |cands| && DistinctKeys(host, cands)
    ensures before.Keys <= ts.Keys
    ensures forall x :: x in Group(host, p, before, host.canon(cands[|targets|].path)) ==> ts[x].meta == before[x].meta
  {}

  lemma PlacingOne(host: Host, p: Payload, before: Tracks, ts: Tracks, cands: seq<Candidate>, targets: seq<int>,
                   counts: Counts, id: int, after: Tracks)
    requires Placing(host, p, before, ts, cands, targets, counts) && |targets| < |cands| && DistinctKeys(host, cands)
    requires Placed(host, p, before, after, cands[|targets|], id)
    requires var group := Group(host, p, before, host.canon(cands[|targets|].path));
             Displaces(ts, after, group, id) && (group == {} ==> id !in ts)
    ensures var group := Group(host, p, before, host.canon(cands[|targets|].path));
            && (group != {} ==> id in group)
            && Placing(host, p, before, after, cands, targets + [id], counts.Plus(CountsOf(before, group, id)))
  {
    PlaceOne(host, p, before, ts, cands, targets, Group(host, p, before, host.canon(cands[|targets|].path)), id, after);
    CountOne(host, p, before, cands, targets, counts, id);
  }

  lemma CountOne(host: Host, p: Payload, before: Tracks, cands: seq<Candidate>, targets: seq<int>, counts: Counts, id: int)
    requires |targets| < |cands| && DistinctKeys(host, cands) && Counted(host, p, before, cands, targets, counts)
    requires Distinct(targets + [id])
    requires var group := Group(host, p, before, host.canon(cands[|targets|].path));
             if group == {} then id !in before else id in group
    ensures var group := Group(host, p, before, host.canon(cands[|targets|].path));
            Counted(host, p, before, cands, targets + [id], counts.Plus(CountsOf(before, group, id)))
  {
    var group := Group(host, p, before, host.canon(cands[|targets|].path));
    PlusCounts(before, group, id, counts);
    CountedNext(host, p, before, cands, targets, id, counts, counts.Plus(CountsOf(before, group, id)));
  }

  /** The counters went up by one candidate: a new row or not, an active one or not, in place of so many. */
  predicate Adds(was: Counts, now: Counts, isNew: bool, active: bool, replaced: nat) {
    && now.added == was.added + (if isNew then 1 else 0) && now.retained == was.retained + (if active then 1 else 0)
    && now.added + now.reactivated + now.retained == was.added + was.reactivated + was.retained + 1
    && now.retained + now.duplicates == was.retained + was.duplicates + replaced
  }

  lemma PlusCounts(before: Tracks, group: set<int>, id: int, counts: Counts)
    requires group <= before.Keys && if group == {} then id !in before else id in group
    ensures Adds(counts, counts.Plus(CountsOf(before, group, id)), id !in before, id in before && before[id].active,
                 |ActiveOf(before, group)|)
  {
    if group == {} {
      assert ActiveOf(before, group) == {};
    } else {
      assert ActiveOf(before, group) == ActiveOf(before, group - {id}) + (if before[id].active then {id} else {});
    }
  }

  lemma CountedNext(host: Host, p: Payload, before: Tracks, cands: seq<Candidate>, targets: seq<int>, id: int,
                    was: Counts, now: Counts)
    requires |targets| < |cands| && DistinctKeys(host, cands) && Distinct(targets + [id])
    requires Counted(host, p, before, cands, targets, was)
    requires Adds(was, now, id !in before, id in before && before[id].active,
                  |ActiveOf(before, Group(host, p, before, host.canon(cands[|targets|].path)))|)
    ensures Counted(host, p, before, cands, targets + [id], now)
  {
    ClaimOne(host, p, before, cands, |targets|);
    OneMoreTarget(before, targets, id);
    assert |targets + [id]| == |targets| + 1;
  }

  lemma OneMoreTarget(before: Tracks, targets: seq<int>, id: int)
    requires Distinct(targets + [id])
    ensures |Elements(targets + [id]) - before.Keys| == |Elements(targets) - before.Keys| + (if id in before then 0 else 1)
    ensures |ActiveOf(before, Elements(targets + [id]))|
         == |ActiveOf(before, Elements(targets))| + (if id in before && before[id].active then 1 else 0)
  {
    NewElement(targets, id);
    NewActive(before, Elements(targets), id);
    var new', more := Elements(targets) - before.Keys, Elements(targets) + {id};
    assert more - before.Keys == if id in before then new' else new' + {id};
  }

  lemma NewElement(targets: seq<int>, id: int)
    requires Distinct(targets + [id])
    ensures id !in Elements(targets) && Elements(targets + [id]) == Elements(targets) + {id}
  {
    var longer := targets + [id];
    forall k | 0 <= k < |targets| ensures targets[k] != id {
      assert longer[k] != longer[|targets|];
    }
  }

  lemma NewActive(before: Tracks, ids: set<int>, id: int)
    requires id !in ids
    ensures |ActiveOf(before, ids + {id})| == |ActiveOf(before, ids)| + (if id in before && before[id].active then 1 else 0)
  {
    assert ActiveOf(before, ids + {id})
        == if id in before && before[id].active then ActiveOf(before, ids) + {id} else ActiveOf(before, ids);
  }

  /** The grouping built from the rows in `seen`. */
  predicate GroupsSoFar(host: Host, p: Payload, ts: Tracks, seen: set<int>, groups: map<string, seq<int>>)
    requires seen <= ts.Keys
  {
    && (forall key :: key in groups ==> groups[key] != [] && ListsGroup(host, p, ts, seen, key, groups[key]))
    && (forall x :: x in seen && Matchable(ts[x], p) ==>
          RowKey(host, ts[x]) in groups && x in groups[RowKey(host, ts[x])])
  }

  predicate ListsGroup(host: Host, p: Payload, ts: Tracks, seen: set<int>, key: string, rows: seq<int>) {
    (forall x :: x in rows ==> x in seen && x in Group(host, p, ts, key)) && InOrder(rows, IdOrder(ts))
  }

  function Grouped(host: Host, p: Payload, ts: Tracks, id: int, groups: map<string, seq<int>>): map<string, seq<int>>
    requires id in ts
  {
    if Strip(ts[id].path) == "" then groups
    else
      var key := RowKey(host, ts[id]);
      groups[key := (if key in groups then groups[key] else []) + [id]]
  }

  lemma GroupOne(host: Host, p: Payload, ts: Tracks, seen: set<int>, id: int, groups: map<string, seq<int>>)
    requires seen <= ts.Keys && id in ts && InScope(ts[id], p)
    requires forall x :: x in seen ==> x < id
    requires GroupsSoFar(host, p, ts, seen, groups)
    ensures GroupsSoFar(host, p, ts, seen + {id}, Grouped(host, p, ts, id, groups))
  {
    var after := Grouped(host, p, ts, id, groups);
    forall key | key in after ensures after[key] != [] && ListsGroup(host, p, ts, seen + {id}, key, after[key]) {
      assert key in groups ==> ListsGroup(host, p, ts, seen, key, groups[key]);
      if Strip(ts[id].path) != "" && key == RowKey(host, ts[id]) {
        InOrderAppend(if key in groups then groups[key] else [], IdOrder(ts), id);
      }
    }
  }

  lemma GroupAll(host: Host, p: Payload, ts: Tracks, groups: map<string, seq<int>>)
    requires var rows := set id | id in ts && InScope(ts[id], p);
             GroupsSoFar(host, p, ts, rows, groups)
    ensures IsGrouping(host, p, ts, groups)
  {
    var scope := set id | id in ts && InScope(ts[id], p);
    forall key | key in groups ensures groups[key] == Ordered(Group(host, p, ts, key), IdOrder(ts)) {
      assert ListsGroup(host, p, ts, scope, key, groups[key]);
      forall x ensures x in groups[key] <==> x in Group(host, p, ts, key) {
        assert x in Group(host, p, ts, key) ==> x in scope && Matchable(ts[x], p) && RowKey(host, ts[x]) == key;
      }
      OrderedUnique(Group(host, p, ts, key), IdOrder(ts), groups[key]);
    }
  }

  lemma NextRow(ts: Tracks, rows: seq<int>, i: nat)
    requires i < |rows| && (forall x :: x in rows ==> x in ts) && InOrder(rows, IdOrder(ts))
    ensures rows[i] in rows && Elements(rows[..i + 1]) == Elements(rows[..i]) + {rows[i]}
    ensures forall x :: x in Elements(rows[..i]) ==> x < rows[i]
  {
    assert rows[..i + 1] == rows[..i] + [rows[i]];
    forall x | x in Elements(rows[..i]) ensures x < rows[i] {
      var k :| 0 <= k < i && rows[..i][k] == x;
      InOrderAt(rows, IdOrder(ts), k, i);
    }
  }

  /** The rows in scope by canonical path, each list in id order. */
  method GroupRows(host: Host, p: Payload, ts: Tracks) returns (groups: map<string, seq<int>>)
    ensures IsGrouping(host, p, ts, groups)
  {
    var scope := set id | id in ts && InScope(ts[id], p);
    var rows := Ordered(scope, IdOrder(ts));
    groups := map[];
    assert Elements(rows[..0]) == {};
    for i := 0 to |rows|
      invariant Elements(rows[..i]) <= ts.Keys && GroupsSoFar(host, p, ts, Elements(rows[..i]), groups)
    {
      NextRow(ts, rows, i);
      GroupOne(host, p, ts, Elements(rows[..i]), rows[i], groups);
      if Strip(ts[rows[i]].path) != "" {
        var key := RowKey(host, ts[rows[i]]);
        groups := groups[key := (if key in groups then groups[key] else []) + [rows[i]]];
      }
    }
    assert rows[..|rows|] == rows;
    assert Elements(rows) == scope;
    GroupAll(host, p, ts, groups);
  }

  lemma GroupKnown(host: Host, p: Payload, ts: Tracks, groups: map<string, seq<int>>, key: string)
    requires IsGrouping(host, p, ts, groups)
    ensures key in groups <==> Group(host, p, ts, key) != {}
  {
    var group := Group(host, p, ts, key);
    if group != {} {
      var x := Pick(group);
      assert Matchable(ts[x], p) && RowKey(host, ts[x]) == key;
    }
  }

  lemma InsertPlaces(host: Host, p: Payload, before: Tracks, ts: Tracks, c: Candidate, id: int)
    requires Group(host, p, before, host.canon(c.path)) == {} && before.Keys <= ts.Keys && id !in ts
    ensures var after := ts[id := Track(p.station, p.kind, c.path, true, FreshMeta(c.meta, p))];
            Placed(host, p, before, after, c, id) && Displaces(ts, after, {}, id)
  {}

  lemma UpdatePlaces(host: Host, p: Payload, before: Tracks, ts: Tracks, c: Candidate, id: int)
    requires var group := Group(host, p, before, host.canon(c.path));
             && group != {} && id == First(group, IdOrder(before))
             && forall x :: x in group ==> x in ts && ts[x].meta == before[x].meta
    ensures var group := Group(host, p, before, host.canon(c.path));
            var row := Track(p.station, p.kind, c.path, true, MergedMeta(ts[id].meta, c.meta, p));
            var after := Deactivate(ts[id := row], group - {id});
            Placed(host, p, before, after, c, id) && Displaces(ts, after, group, id)
  {}

  lemma SplitMatches(host: Host, p: Payload, before: Tracks, key: string)
    requires Group(host, p, before, key) != {}
    ensures var group := Group(host, p, before, key);
            var matches := Ordered(group, IdOrder(before));
            && matches[0] == First(group, IdOrder(before)) && matches[0] in group
            && Elements(matches[1..]) == group - {matches[0]}
            && Distinct(matches[1..]) && forall k :: 0 <= k < |matches[1..]| ==> matches[1..][k] in group
  {
    var group := Group(host, p, before, key);
    var matches := Ordered(group, IdOrder(before));
    assert matches[1..] == Ordered(group - {matches[0]}, IdOrder(before));
    InOrderDistinct(matches, IdOrder(before));
    forall k | 0 <= k < |matches[1..]| ensures matches[1..][k] in group {
      assert matches[1..][k] in matches[1..];
    }
  }

  predicate NumberedUpTo(before: Table, now: Table, rows: seq<int>, i: nat) {
    && now.Keys == before.Keys
    && (forall id :: id in before && id !in rows ==> now[id] == before[id])
    && (forall k :: 0 <= k < |rows| ==>
          (rows[k] in before && rows[k] in now
           && now[rows[k]] == if k < i then before[rows[k]].(position := k + 1) else before[rows[k]]))
  }

  lemma NumberNone(before: Table, station: int)
    ensures NumberedUpTo(before, before, QueueOrder(before, station), 0)
    ensures Distinct(QueueOrder(before, station))
  {
    var rows := QueueOrder(before, station);
    forall k | 0 <= k < |rows| ensures rows[k] in before {
      assert rows[k] in rows;
    }
    InOrderDistinct(rows, Positions(before));
  }

  lemma NumberAll(before: Table, now: Table, station: int)
    requires NumberedUpTo(before, now, QueueOrder(before, station), |QueueOrder(before, station)|)
    ensures Renumbered(before, now, station)
  {
    NumberedAt(before, now, QueueOrder(before, station), 1);
  }

  lemma NumberOne(before: Table, now: Table, rows: seq<int>, i: nat)
    requires NumberedUpTo(before, now, rows, i) && i < |rows| && Distinct(rows)
    ensures rows[i] in now
    ensures NumberedUpTo(before, now[rows[i] := now[rows[i]].(position := i + 1)], rows, i + 1)
  {}

  lemma OneMore(before: Tracks, ids: seq<int>, i: nat)
    requires i < |ids| && Distinct(ids) && ids[i] in before
    ensures Elements(ids[..i + 1]) == Elements(ids[..i]) + {ids[i]}
    ensures |ActiveOf(before, Elements(ids[..i + 1]))|
         == |ActiveOf(before, Elements(ids[..i]))| + (if before[ids[i]].active then 1 else 0)
  {
    assert ids[..i + 1] == ids[..i] + [ids[i]];
    assert Elements(ids[..i + 1]) == Elements(ids[..i]) + {ids[i]};
    assert ids[i] !in ids[..i];
    assert ActiveOf(before, Elements(ids[..i + 1]))
        == ActiveOf(before, Elements(ids[..i])) + (if before[ids[i]].active then {ids[i]} else {});
  }

  lemma DeactivateOne(ts: Tracks, done: set<int>, id: int)
    requires id in ts
    ensures var now := Deactivate(ts, done);
            now[id := now[id].(active := false)] == Deactivate(ts, done + {id})
  {}
}
