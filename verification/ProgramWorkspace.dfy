/** The program workspace of one station: who may claim it, edit its queue and go live
    (app/api/legacy.py and app/api/shows.py, over app/repositories/program_queue_repo.py and
    show_session_repo.py). Each endpoint is one atomic step. */
module ProgramWorkspace {
  import opened Wrappers

  datatype Permission = Broadcast | QueueEdit | BreakControl | EndShow

  datatype User = User(id: int, admin: bool, grants: set<(int, Permission)>)
  {
    predicate May(show: int, p: Permission) { (show, p) in grants }
  }

  datatype Status = Preparing | GoingLive | IntroPlaying | Live | BreakOutro | OnBreak | BreakIntro
                  | OutroPlaying | Ended

  datatype Session = Session(show: int, user: int, status: Status)

  datatype Claim = Claim(show: int, user: int)

  datatype Source = Automation | Host

  /** `addedFor` is the show an item was added for, 0 for none. The source stores no such column; it
      is recorded here to say whose items the queue holds. */
  datatype Item = Item(track: int, addedFor: int)

  /** The station's rows: the claim settings, every session ever (in id order), the queue. */
  datatype State = State(claim: Option<Claim>, sessions: seq<Session>, items: seq<Item>, source: Source)

  /** The show table: show id to station id. */
  type Shows = map<int, int>

  datatype Answer = Ok(show: int) | Err(code: int)

  // ---- Lookups and permission checks --------------------------------------------------------

  /** The newest session that has not ended. */
  function ActiveSession(sessions: seq<Session>): (r: Option<nat>)
    ensures r.Some? ==> r.value < |sessions| && sessions[r.value].status != Ended
                        && forall i :: r.value < i < |sessions| ==> sessions[i].status == Ended
    ensures r.None? ==> forall i :: 0 <= i < |sessions| ==> sessions[i].status == Ended
  {
    if sessions == [] then None
    else if sessions[|sessions| - 1].status != Ended then Some(|sessions| - 1)
    else ActiveSession(sessions[..|sessions| - 1])
  }

  function ActiveShow(s: State): Option<int> {
    match ActiveSession(s.sessions)
    case None => None
    case Some(i) => Some(s.sessions[i].show)
  }

  /** `_resolve_program_action_show_id`; a missing show id is 0. */
  function ResolveShow(shows: Shows, station: int, s: State, requested: int): Answer {
    match ActiveShow(s)
    case Some(active) => if requested > 0 && requested != active then Err(409) else Ok(active)
    case None =>
      if requested <= 0 then Err(400)
      else if requested !in shows then Err(404)
      else if shows[requested] != station then Err(400)
      else Ok(requested)
  }

  /** `_require_program_show_permission`: an admin without a show acts for the active one, or for none. */
  function ShowPermission(shows: Shows, station: int, s: State, u: User, p: Permission, requested: int): Answer {
    if u.admin && requested <= 0 then
      match ActiveShow(s) case Some(active) => Ok(active) case None => Ok(0)
    else
      var r := ResolveShow(shows, station, s, requested);
      if r.Ok? && !u.admin && !u.May(r.show, p) then Err(403) else r
  }

  /** `_require_program_workspace_claim`. */
  function ClaimRefusal(s: State, show: int): Option<int> {
    match ActiveShow(s)
    case Some(active) => if active != show then Some(403) else None
    case None => if s.claim.None? || s.claim.value.show != show then Some(409) else None
  }

  /** `_require_program_workspace_permission`: the show the caller acts for, 0 for none. */
  function WorkspacePermission(shows: Shows, station: int, s: State, u: User, p: Permission, requested: int): Answer {
    var r := ShowPermission(shows, station, s, u, p, requested);
    if r.Ok? && r.show > 0 && ClaimRefusal(s, r.show).Some? then Err(ClaimRefusal(s, r.show).value) else r
  }

  predicate Idle(s: State) {
    s.items == [] && s.source == Automation
  }

  /** Someone other than the claimant's show may take the workspace over. */
  predicate MayReplaceClaim(s: State, u: User, show: int, force: bool) {
    || s.claim.None? || s.claim.value.show == show || u.admin || s.claim.value.user == u.id
    || Idle(s) || force
  }

  // ---- The steps ----------------------------------------------------------------------------

  datatype Action =
    | ClaimWorkspace(u: User, show: int, force: bool)
    | ReleaseWorkspace(u: User, show: int)
    | AddItem(u: User, show: int, track: int)
    | MoveItem(u: User, show: int, from: int, to: int)
    | DeleteItem(u: User, show: int, index: int)
    | ClearQueue(u: User, show: int)
    | SetSource(u: User, show: int, source: Source)
    | GoLive(u: User, show: int, minTracks: int)
    | GoBreak(u: User, show: int)
    | EndLive(u: User, show: int)
    | WorkerTick(intro: bool)
      // The finished item leaves the queue by its id, from wherever it has been moved.
    | WorkerPop(index: int)
    | TrackRemoved(track: int)
      // `elsewhere`: whether a session of another station is ended too, which resets every station.
    | StartupReconcile(elsewhere: bool)

  function Emptied(s: State): State {
    s.(items := [], source := Automation)
  }

  function WithStatus(s: State, i: nat, status: Status): State
    requires i < |s.sessions|
  {
    s.(sessions := s.sessions[i := s.sessions[i].(status := status)])
  }

  function AfterClaim(shows: Shows, station: int, s: State, u: User, show: int, force: bool): State {
    var r := ResolveShow(shows, station, s, show);
    if r.Err? || (!u.admin && !u.May(r.show, Broadcast) && !u.May(r.show, QueueEdit)) then s
    else if ActiveShow(s).Some? then s.(claim := Some(Claim(r.show, u.id)))
    else if !MayReplaceClaim(s, u, r.show, force) then s
    else (if s.claim.None? || s.claim.value.show != r.show then Emptied(s) else s).(claim := Some(Claim(r.show, u.id)))
  }

  function AfterRelease(s: State, u: User, show: int): State {
    if ActiveShow(s).Some? then s
    else if s.claim.None? then Emptied(s)
    else
      var c := s.claim.value;
      if show > 0 && show != c.show then s
      else if !u.admin && c.user != u.id && !u.May(c.show, Broadcast) && !u.May(c.show, QueueEdit) then s
      else Emptied(s).(claim := None)
  }

  function Clamp(x: int, n: int): int {
    if x < 0 then 0 else if x >= n then n - 1 else x
  }

  function Moved(items: seq<Item>, from: int, to: int): seq<Item>
    requires 0 <= from < |items|
  {
    var rest := items[..from] + items[from + 1..];
    var at := Clamp(to, |items|);
    rest[..at] + [items[from]] + rest[at..]
  }

  function AfterGoLive(shows: Shows, s: State, u: User, show: int, minTracks: int): State {
    if !(u.admin || u.May(show, Broadcast)) || show !in shows || ActiveShow(s).Some? then s
    else if s.claim.None? || s.claim.value.show != show || |s.items| < minTracks then s
    else s.(sessions := s.sessions + [Session(show, u.id, GoingLive)], source := Host)
  }

  /** `_process_show_lifecycle`: `intro` says whether a clip of the show is there to be played. */
  function AfterTick(s: State, intro: bool): State {
    match ActiveSession(s.sessions)
    case None => s
    case Some(i) =>
      match s.sessions[i].status
      case GoingLive => WithStatus(s, i, if intro then IntroPlaying else Live)
      case IntroPlaying => WithStatus(s, i, Live)
      case BreakOutro => WithStatus(s, i, OnBreak)
      case OnBreak => WithStatus(s, i, if intro then BreakIntro else Live)
      case BreakIntro => WithStatus(s, i, Live)
      case OutroPlaying => WithStatus(s, i, Ended).(source := Automation)
      case _ => s
  }

  /** Ends every session that has begun, as the start-up reconcile does. */
  function EndBegun(sessions: seq<Session>): seq<Session> {
    seq(|sessions|, i requires 0 <= i < |sessions| =>
      if sessions[i].status == Preparing then sessions[i] else sessions[i].(status := Ended))
  }

  /** A break or an end of the active show by someone allowed to ask for it. */
  function AfterCue(shows: Shows, s: State, u: User, show: int, p: Permission, from: set<Status>, to: Status): State {
    match ActiveSession(s.sessions)
    case None => s
    case Some(i) =>
      if (u.admin || u.May(show, p)) && show in shows && s.sessions[i].show == show && s.sessions[i].status in from
      then WithStatus(s, i, to) else s
  }

  function WithoutTrack(items: seq<Item>, track: int): seq<Item> {
    if items == [] then []
    else (if items[0].track == track then [] else [items[0]]) + WithoutTrack(items[1..], track)
  }

  function Step(shows: Shows, station: int, s: State, a: Action): State {
    match a
    case ClaimWorkspace(u, show, force) => AfterClaim(shows, station, s, u, show, force)
    case ReleaseWorkspace(u, show) => AfterRelease(s, u, show)
    case AddItem(u, show, track) =>
      var r := WorkspacePermission(shows, station, s, u, QueueEdit, show);
      if r.Ok? then s.(items := s.items + [Item(track, r.show)]) else s
    case MoveItem(u, show, from, to) =>
      if WorkspacePermission(shows, station, s, u, QueueEdit, show).Ok? && 0 <= from < |s.items|
      then s.(items := Moved(s.items, from, to)) else s
    case DeleteItem(u, show, index) =>
      if WorkspacePermission(shows, station, s, u, QueueEdit, show).Ok? && 0 <= index < |s.items|
      then s.(items := s.items[..index] + s.items[index + 1..]) else s
    case ClearQueue(u, show) =>
      if WorkspacePermission(shows, station, s, u, QueueEdit, show).Ok? then s.(items := []) else s
    case SetSource(u, show, source) =>
      if WorkspacePermission(shows, station, s, u, Broadcast, show).Ok? then s.(source := source) else s
    case GoLive(u, show, minTracks) => AfterGoLive(shows, s, u, show, minTracks)
    case GoBreak(u, show) => AfterCue(shows, s, u, show, BreakControl, {Live}, BreakOutro)
    case EndLive(u, show) => AfterCue(shows, s, u, show, EndShow, {Live, OnBreak, BreakOutro, BreakIntro}, OutroPlaying)
    case WorkerTick(intro) => AfterTick(s, intro)
    case WorkerPop(index) => if 0 <= index < |s.items| then s.(items := s.items[..index] + s.items[index + 1..]) else s
    case TrackRemoved(track) => s.(items := WithoutTrack(s.items, track))
    case StartupReconcile(elsewhere) =>
      var sessions := EndBegun(s.sessions);
      s.(sessions := sessions, source := if elsewhere || sessions != s.sessions then Automation else s.source)
  }

  function Run(shows: Shows, station: int, s: State, actions: seq<Action>): State
    decreases |actions|
  {
    if actions == [] then s else Run(shows, station, Step(shows, station, s, actions[0]), actions[1..])
  }

  // ---- Ownership ----------------------------------------------------------------------------

  predicate OneActiveSession(sessions: seq<Session>) {
    forall i, j :: 0 <= i < j < |sessions| ==> sessions[i].status == Ended || sessions[j].status == Ended
  }

  /** Every item added for a show was added for the claimed one. */
  predicate ItemsOwned(claim: Option<Claim>, items: seq<Item>) {
    forall it :: it in items && it.addedFor != 0 ==> claim.Some? && it.addedFor == claim.value.show
  }

  predicate Owned(shows: Shows, station: int, s: State) {
    && OneActiveSession(s.sessions)
    && (s.claim.Some? ==> s.claim.value.show in shows && shows[s.claim.value.show] == station)
    && (ActiveShow(s).Some? ==> s.claim.Some? && s.claim.value.show == ActiveShow(s).value)
    && ItemsOwned(s.claim, s.items)
  }

  predicate PositiveIds(shows: Shows) {
    forall id :: id in shows ==> id > 0
  }

  /** Where no session is active, a new one becomes the active one. */
  lemma AppendActive(s: State, show: int, user: int)
    requires ActiveShow(s).None?
    ensures var sessions := s.sessions + [Session(show, user, GoingLive)];
            OneActiveSession(sessions) && ActiveSession(sessions) == Some(|s.sessions|)
  {}

  lemma EndBegunKeepsActive(s: State)
    requires OneActiveSession(s.sessions)
    ensures OneActiveSession(EndBegun(s.sessions))
    ensures ActiveShow(s.(sessions := EndBegun(s.sessions))) in {ActiveShow(s), None}
  {}

  lemma {:induction false} WithoutTrackOwned(claim: Option<Claim>, items: seq<Item>, track: int)
    requires ItemsOwned(claim, items)
    ensures ItemsOwned(claim, WithoutTrack(items, track))
    ensures forall it :: it in WithoutTrack(items, track) <==> it in items && it.track != track
  {
    if items != [] {
      assert items == [items[0]] + items[1..];
      WithoutTrackOwned(claim, items[1..], track);
    }
  }

  /** Every endpoint and worker step keeps the ownership of the workspace. */
  lemma StepKeepsOwnership(shows: Shows, station: int, s: State, a: Action)
    requires PositiveIds(shows) && Owned(shows, station, s)
    ensures Owned(shows, station, Step(shows, station, s, a))
  {
    match a
    case ClaimWorkspace(u, show, force) => ClaimKeeps(shows, station, s, u, show, force);
    case AddItem(u, show, track) => AddKeeps(shows, station, s, u, show, track);
    case MoveItem(u, show, from, to) =>
      if 0 <= from < |s.items| {
        MovedOwned(s.claim, s.items, from, to);
      }
    case WorkerTick(intro) =>
      if ActiveSession(s.sessions).Some? {
        TickKeeps(shows, station, s, intro);
      }
    case GoBreak(u, show) => CueKeeps(shows, station, s, u, show, BreakControl, {Live}, BreakOutro);
    case EndLive(u, show) => CueKeeps(shows, station, s, u, show, EndShow, {Live, OnBreak, BreakOutro, BreakIntro}, OutroPlaying);
    case GoLive(u, show, minTracks) =>
      if ActiveShow(s).None? {
        AppendActive(s, show, u.id);
      }
    case StartupReconcile(_) => EndBegunKeepsActive(s);
    case TrackRemoved(track) => WithoutTrackOwned(s.claim, s.items, track);
    case _ =>
  }

  lemma ClaimKeeps(shows: Shows, station: int, s: State, u: User, show: int, force: bool)
    requires Owned(shows, station, s)
    ensures Owned(shows, station, AfterClaim(shows, station, s, u, show, force))
  {}

  lemma AddKeeps(shows: Shows, station: int, s: State, u: User, show: int, track: int)
    requires PositiveIds(shows) && Owned(shows, station, s)
    ensures Owned(shows, station, Step(shows, station, s, AddItem(u, show, track)))
  {}

  lemma MovedKeepsAll(items: seq<Item>, from: int, to: int)
    requires 0 <= from < |items|
    ensures multiset(Moved(items, from, to)) == multiset(items)
    ensures Moved(items, from, to)[Clamp(to, |items|)] == items[from]
  {
    var rest, at := items[..from] + items[from + 1..], Clamp(to, |items|);
    assert items == items[..from] + [items[from]] + items[from + 1..];
    assert rest == rest[..at] + rest[at..];
    assert multiset(Moved(items, from, to)) == multiset(rest) + multiset{items[from]};
  }

  lemma MovedOwned(claim: Option<Claim>, items: seq<Item>, from: int, to: int)
    requires ItemsOwned(claim, items) && 0 <= from < |items|
    ensures ItemsOwned(claim, Moved(items, from, to))
  {}

  lemma TickKeeps(shows: Shows, station: int, s: State, intro: bool)
    requires Owned(shows, station, s) && ActiveSession(s.sessions).Some?
    ensures Owned(shows, station, AfterTick(s, intro))
  {}

  lemma CueKeeps(shows: Shows, station: int, s: State, u: User, show: int, p: Permission, from: set<Status>, to: Status)
    requires Owned(shows, station, s)
    ensures Owned(shows, station, AfterCue(shows, s, u, show, p, from, to))
  {}

  /** Over any run of claims, releases, queue edits, go-lives, breaks, ends and worker steps: at most
      one session is active, its show belongs to the station and is the claimed one, and every item
      in the queue was added for the claimed show or by an admin acting for none. */
  lemma {:induction false} RunKeepsOwnership(shows: Shows, station: int, s: State, actions: seq<Action>)
    requires PositiveIds(shows) && Owned(shows, station, s)
    ensures Owned(shows, station, Run(shows, station, s, actions))
    decreases |actions|
  {
    if actions != [] {
      StepKeepsOwnership(shows, station, s, actions[0]);
      RunKeepsOwnership(shows, station, Step(shows, station, s, actions[0]), actions[1..]);
    }
  }

  /** A run is its steps, one after the other. */
  lemma {:induction false} RunJoins(shows: Shows, station: int, s: State, a: seq<Action>, b: seq<Action>)
    ensures Run(shows, station, s, a + b) == Run(shows, station, Run(shows, station, s, a), b)
    ensures |a| == 1 ==> Run(shows, station, s, a) == Step(shows, station, s, a[0])
    decreases |a|
  {
    if a == [] {
      assert a + b == b;
    } else {
      assert (a + b)[1..] == a[1..] + b;
      RunJoins(shows, station, Step(shows, station, s, a[0]), a[1..], b);
    }
  }

  /** No step carries a queue from one claimed show to another. */
  lemma ClaimChangeClearsQueue(shows: Shows, station: int, s: State, a: Action)
    requires PositiveIds(shows) && Owned(shows, station, s)
    requires var e := Step(shows, station, s, a);
             (s.claim.None? != e.claim.None?) || (s.claim.Some? && s.claim.value.show != e.claim.value.show)
    ensures Step(shows, station, s, a).items == [] && Step(shows, station, s, a).source == Automation
    ensures ActiveShow(s).None?
  {}

  /** A claimed workspace in use changes hands only through its claimant, an admin, a member of the
      claimed show, or a forced claim. */
  lemma TakeoverNeedsConsent(shows: Shows, station: int, s: State, a: Action)
    requires PositiveIds(shows) && Owned(shows, station, s) && s.claim.Some? && !Idle(s)
    requires Step(shows, station, s, a).claim.None? || Step(shows, station, s, a).claim.value.show != s.claim.value.show
    ensures (a.ClaimWorkspace? || a.ReleaseWorkspace?)
    ensures a.u.admin || a.u.id == s.claim.value.user || (a.ClaimWorkspace? && a.force)
            || (a.ReleaseWorkspace? && (a.u.May(s.claim.value.show, Broadcast) || a.u.May(s.claim.value.show, QueueEdit)))
  {}

  /** The show a request without a show id, or with this one, may act for: the claimed one. */
  predicate ActsForClaim(s: State, requested: int) {
    s.claim.Some? && (requested == s.claim.value.show || (requested <= 0 && ActiveShow(s).Some?))
  }

  /** Who may work on the queue: exactly an admin who names no show, and whoever acts for the claimed
      show as an admin or with the permission. Nobody ever acts for another show. */
  lemma PermissionExactly(shows: Shows, station: int, s: State, u: User, p: Permission, requested: int)
    requires PositiveIds(shows) && Owned(shows, station, s)
    ensures var r := WorkspacePermission(shows, station, s, u, p, requested);
            && (r.Ok? <==> (u.admin && requested <= 0)
                           || (ActsForClaim(s, requested) && (u.admin || u.May(s.claim.value.show, p))))
            && (r.Ok? ==> r.show == if ActsForClaim(s, requested) then s.claim.value.show else 0)
  {}

  /** The refusals: 403 without the permission for the show acted for, 409 for another show than the one
      on air or the claimed one, 400 without a show or with another station's, 404 for an unknown one. */
  lemma RefusalsExactly(shows: Shows, station: int, s: State, u: User, p: Permission, requested: int)
    requires !(u.admin && requested <= 0)
    ensures var r := WorkspacePermission(shows, station, s, u, p, requested);
            && (r.Ok? || r in {Err(400), Err(403), Err(404), Err(409)})
            && (r == Err(403) <==> exists x :: ActsFor(shows, station, s, requested, x) && !u.admin && (x, p) !in u.grants)
            && (r == Err(404) <==> OffAir(s) && requested > 0 && requested !in shows)
            && (r == Err(400) <==> OffAir(s) && (requested <= 0 || (requested in shows && shows[requested] != station)))
            && (r == Err(409) <==> OtherOnAir(s, requested)
                                   || (ActsFor(shows, station, s, requested, requested) && OffAir(s)
                                       && (u.admin || (requested, p) in u.grants)
                                       && (s.claim == None || s.claim.value.show != requested)))
  {
    ResolveExactly(shows, station, s, requested);
    NewestIsOnAir(s);
    var r := ResolveShow(shows, station, s, requested);
    assert r.Ok? ==> ActsFor(shows, station, s, requested, r.show);
  }

  /** Another show than the one asked for is on air. */
  ghost predicate OtherOnAir(s: State, requested: int) {
    requested > 0 && exists i :: OnAir(s, i) && requested != s.sessions[i].show
  }

  // ---- Each endpoint, told by the rows ------------------------------------------------------

  /** Session i is the newest that has not ended. */
  ghost predicate OnAir(s: State, i: int) {
    && 0 <= i < |s.sessions| && s.sessions[i].status != Ended
    && forall j :: i < j < |s.sessions| ==> s.sessions[j].status == Ended
  }

  ghost predicate OffAir(s: State) {
    forall i :: 0 <= i < |s.sessions| ==> s.sessions[i].status == Ended
  }

  /** The show a request acts for: the one on air, which it may name or not; off air the one it names, if
      that is a show of the station. */
  ghost predicate ActsFor(shows: Shows, station: int, s: State, requested: int, show: int) {
    || (exists i :: OnAir(s, i) && show == s.sessions[i].show && (requested <= 0 || requested == show))
    || (OffAir(s) && requested > 0 && requested in shows && shows[requested] == station && show == requested)
  }

  lemma NewestIsOnAir(s: State)
    ensures ActiveSession(s.sessions) == None <==> OffAir(s)
    ensures forall i :: OnAir(s, i) <==> ActiveSession(s.sessions) == Some(i)
  {
    forall i ensures OnAir(s, i) <==> ActiveSession(s.sessions) == Some(i) {
      if OnAir(s, i) && ActiveSession(s.sessions).Some? {
        var k := ActiveSession(s.sessions).value;
        assert !(k < i) && !(i < k);
      }
    }
  }

  lemma ResolveExactly(shows: Shows, station: int, s: State, requested: int)
    ensures var r := ResolveShow(shows, station, s, requested);
            && (forall show :: r == Ok(show) <==> ActsFor(shows, station, s, requested, show))
            && (r == Err(400) <==> OffAir(s) && (requested <= 0 || (requested in shows && shows[requested] != station)))
            && (r == Err(404) <==> OffAir(s) && requested > 0 && requested !in shows)
            && (r == Err(409) <==> exists i :: OnAir(s, i) && requested > 0 && requested != s.sessions[i].show)
            && (r.Ok? || r in {Err(400), Err(404), Err(409)})
  {
    NewestIsOnAir(s);
    if ActiveSession(s.sessions).Some? {
      assert OnAir(s, ActiveSession(s.sessions).value);
    }
  }

  /** A station admin, or someone who may broadcast the show or edit its queue. */
  ghost predicate MemberOf(u: User, show: int) {
    u.admin || (show, Broadcast) in u.grants || (show, QueueEdit) in u.grants
  }

  /** On air the claim is a formality; off air it needs a free workspace, the same show, the claimant, an
      admin, a workspace not in use, or force. */
  ghost predicate MayClaim(s: State, u: User, show: int, force: bool) {
    || !OffAir(s) || s.claim == None || s.claim.value.show == show || u.admin || s.claim.value.user == u.id
    || (s.items == [] && s.source == Automation) || force
  }

  /** A claim, whole: who may claim which show, and what it leaves. */
  lemma ClaimExactly(shows: Shows, station: int, s: State, u: User, requested: int, force: bool, show: int)
    ensures var e := AfterClaim(shows, station, s, u, requested, force);
            if ActsFor(shows, station, s, requested, show) && MemberOf(u, show) && MayClaim(s, u, show, force) then
              e == if OffAir(s) && (s.claim == None || s.claim.value.show != show)
                   then State(Some(Claim(show, u.id)), s.sessions, [], Automation)
                   else State(Some(Claim(show, u.id)), s.sessions, s.items, s.source)
            else ActsFor(shows, station, s, requested, show) ==> e == s
    ensures (forall x :: !ActsFor(shows, station, s, requested, x)) ==> AfterClaim(shows, station, s, u, requested, force) == s
  {
    ResolveExactly(shows, station, s, requested);
    NewestIsOnAir(s);
  }

  /** A release, whole. Without a claim it empties the queue and keeps nothing else. */
  ghost predicate MayRelease(s: State, u: User, requested: int) {
    OffAir(s) && (s.claim == None
                  || ((requested <= 0 || requested == s.claim.value.show)
                      && (s.claim.value.user == u.id || MemberOf(u, s.claim.value.show))))
  }

  lemma ReleaseExactly(s: State, u: User, requested: int)
    ensures AfterRelease(s, u, requested)
            == if MayRelease(s, u, requested) then State(None, s.sessions, [], Automation) else s
  {
    NewestIsOnAir(s);
  }

  /** Who may edit the queue, and what each edit does to it. */
  lemma EditsExactly(shows: Shows, station: int, s: State, a: Action)
    requires PositiveIds(shows) && Owned(shows, station, s)
    requires a.MoveItem? || a.DeleteItem? || a.ClearQueue? || a.SetSource?
    ensures var e := Step(shows, station, s, a);
            var may := if a.SetSource? then Edits(s, a.u, a.show, Broadcast) else Edits(s, a.u, a.show, QueueEdit);
            && e == s.(items := e.items, source := e.source)
            && (!may ==> e == s)
            && (may && a.ClearQueue? ==> e.items == [] && e.source == s.source)
            && (may && a.SetSource? ==> e.items == s.items && e.source == a.source)
            && (may && a.DeleteItem? ==> e.source == s.source)
            && (may && a.DeleteItem? ==>
                  if 0 <= a.index < |s.items| then e.items == s.items[..a.index] + s.items[a.index + 1..] else e.items == s.items)
            && (may && a.MoveItem? ==> e.source == s.source)
            && (may && a.MoveItem? ==>
                  if 0 <= a.from < |s.items| then IsMoved(s.items, e.items, a.from, a.to) else e.items == s.items)
  {
    PermissionExactly(shows, station, s, a.u, if a.SetSource? then Broadcast else QueueEdit, a.show);
    if a.MoveItem? && 0 <= a.from < |s.items| {
      MovedExactly(s.items, a.from, a.to);
    }
  }

  ghost predicate Edits(s: State, u: User, requested: int, p: Permission) {
    || (u.admin && requested <= 0)
    || (s.claim.Some? && (requested == s.claim.value.show || (requested <= 0 && !OffAir(s)))
        && (u.admin || (s.claim.value.show, p) in u.grants))
  }

  /** The item goes to the place asked for, or to the nearest there is; the others keep their order. */
  ghost predicate IsMoved(items: seq<Item>, moved: seq<Item>, from: int, to: int)
    requires 0 <= from < |items|
  {
    var at := if to < 0 then 0 else if to >= |items| then |items| - 1 else to;
    && |moved| == |items| && moved[at] == items[from]
    && moved[..at] + moved[at + 1..] == items[..from] + items[from + 1..]
  }

  lemma MovedExactly(items: seq<Item>, from: int, to: int)
    requires 0 <= from < |items|
    ensures IsMoved(items, Moved(items, from, to), from, to)
  {
    var rest, at := items[..from] + items[from + 1..], Clamp(to, |items|);
    var moved := Moved(items, from, to);
    assert moved[..at] == rest[..at] && moved[at + 1..] == rest[at..];
  }

  /** Going live: the caller may broadcast, the station is off air, the workspace is the show's and holds
      enough tracks. A new session begins, and the host queue plays. */
  ghost predicate MayGoLive(shows: Shows, s: State, u: User, show: int, minTracks: int) {
    && (u.admin || (show, Broadcast) in u.grants) && show in shows && OffAir(s)
    && s.claim.Some? && s.claim.value.show == show && |s.items| >= minTracks
  }

  /** A break of the live show, or the end of one that has begun. */
  ghost predicate MayCue(shows: Shows, s: State, u: User, show: int, ending: bool, i: int) {
    && (u.admin || (show, if ending then EndShow else BreakControl) in u.grants) && show in shows
    && OnAir(s, i) && s.sessions[i].show == show
    && (s.sessions[i].status == Live || (ending && s.sessions[i].status in {OnBreak, BreakOutro, BreakIntro}))
  }

  /** One tick of the worker moves the session on air along, by an intro clip where there is one, and
      leaves a live one alone; with its end the station returns to automation. */
  lemma TickExactly(s: State, intro: bool, i: int)
    requires OnAir(s, i)
    ensures var e, was := AfterTick(s, intro), s.sessions[i].status;
            var now := e.sessions[if |e.sessions| == |s.sessions| then i else 0].status;
            && |e.sessions| == |s.sessions| && e.sessions == s.sessions[i := Session(s.sessions[i].show, s.sessions[i].user, now)]
            && e.claim == s.claim && e.items == s.items
            && (was == GoingLive ==> now == if intro then IntroPlaying else Live)
            && (was == IntroPlaying || was == BreakIntro || was == Live ==> now == Live)
            && (was == BreakOutro ==> now == OnBreak)
            && (was == OnBreak ==> now == if intro then BreakIntro else Live)
            && (was == OutroPlaying ==> now == Ended)
            && (was == Preparing ==> now == Preparing)
            && e.source == if was == OutroPlaying then Automation else s.source
  {
    NewestIsOnAir(s);
    assert s.sessions[i := s.sessions[i]] == s.sessions;
  }

  /** At start-up every session that has begun is ended, and the queue goes back to automation if one was,
      here or at another station. */
  lemma StartupExactly(shows: Shows, station: int, s: State, elsewhere: bool)
    ensures var e := Step(shows, station, s, StartupReconcile(elsewhere));
            && |e.sessions| == |s.sessions| && e.claim == s.claim && e.items == s.items
            && (forall i :: 0 <= i < |s.sessions| ==>
                  e.sessions[i] == Session(s.sessions[i].show, s.sessions[i].user,
                                           if s.sessions[i].status == Preparing then Preparing else Ended))
            && e.source == if elsewhere || exists i :: 0 <= i < |s.sessions| && s.sessions[i].status !in {Preparing, Ended}
                           then Automation else s.source
  {
    if exists i :: 0 <= i < |s.sessions| && s.sessions[i].status !in {Preparing, Ended} {
      var i :| 0 <= i < |s.sessions| && s.sessions[i].status !in {Preparing, Ended};
      assert EndBegun(s.sessions)[i] != s.sessions[i];
    } else {
      assert EndBegun(s.sessions) == s.sessions;
    }
  }

  /** A played track leaves the queue at its place, a removed one wherever it is; the others stay in order. */
  lemma RemovalsExactly(shows: Shows, station: int, s: State, track: int, index: int)
    ensures Step(shows, station, s, WorkerPop(index))
            == s.(items := if 0 <= index < |s.items| then s.items[..index] + s.items[index + 1..] else s.items)
    ensures Step(shows, station, s, TrackRemoved(track)) == s.(items := WithoutTrack(s.items, track))
    ensures forall a, b :: WithoutTrack(a + b, track) == WithoutTrack(a, track) + WithoutTrack(b, track)
    ensures forall it :: WithoutTrack([it], track) == if it.track == track then [] else [it]
  {
    forall a, b ensures WithoutTrack(a + b, track) == WithoutTrack(a, track) + WithoutTrack(b, track) {
      WithoutTrackJoins(a, b, track);
    }
  }

  lemma {:induction false} WithoutTrackJoins(a: seq<Item>, b: seq<Item>, track: int)
    ensures WithoutTrack(a + b, track) == WithoutTrack(a, track) + WithoutTrack(b, track)
  {
    if a == [] {
      assert a + b == b;
    } else {
      assert (a + b)[1..] == a[1..] + b;
      WithoutTrackJoins(a[1..], b, track);
    }
  }

  // ---- The endpoints ------------------------------------------------------------------------

  class Workspace {
    const shows: Shows
    const station: int
    var claim: Option<Claim>
    var sessions: seq<Session>
    var items: seq<Item>
    var source: Source

    constructor (shows: Shows, station: int)
      requires PositiveIds(shows)
      ensures this.shows == shows && this.station == station
      ensures Rows() == State(None, [], [], Automation) && Owned(shows, station, Rows())
    {
      this.shows, this.station := shows, station;
      claim, sessions, items, source := None, [], [], Automation;
    }

    function Rows(): State
      reads this
    {
      State(claim, sessions, items, source)
    }

    method ClearQueueRows()
      modifies this`items, this`source
      ensures items == [] && source == Automation
    {
      items := [];
      source := Automation;
    }

    method ClaimFor(u: User, show: int, force: bool) returns (r: Answer)
      modifies this
      ensures Rows() == Step(shows, station, old(Rows()), ClaimWorkspace(u, show, force))
      ensures r.Ok? ==> claim == Some(Claim(r.show, u.id)) && (show <= 0 || r.show == show)
      ensures r.Err? ==> Rows() == old(Rows())
      // The claim succeeds exactly for a show the request may act for, by a member of it, with consent.
      ensures forall x :: r == Ok(x) <==>
                ActsFor(shows, station, old(Rows()), show, x) && MemberOf(u, x) && MayClaim(old(Rows()), u, x, force)
      ensures r == Err(403) <==> exists x :: ActsFor(shows, station, old(Rows()), show, x) && !MemberOf(u, x)
      ensures r == Err(409) <==> OtherOnAir(old(Rows()), show)
                                 || (ActsFor(shows, station, old(Rows()), show, show) && MemberOf(u, show)
                                     && !MayClaim(old(Rows()), u, show, force))
    {
      ResolveExactly(shows, station, Rows(), show);
      NewestIsOnAir(Rows());
      r := ResolveShow(shows, station, Rows(), show);
      if r.Err? {
        return;
      }
      if !u.admin && !u.May(r.show, Broadcast) && !u.May(r.show, QueueEdit) {
        return Err(403);
      }
      if ActiveShow(Rows()).Some? {
        claim := Some(Claim(r.show, u.id));
        return;
      }
      if !MayReplaceClaim(Rows(), u, r.show, force) {
        return Err(409);
      }
      if claim.None? || claim.value.show != r.show {
        ClearQueueRows();
      }
      claim := Some(Claim(r.show, u.id));
    }

    method Release(u: User, show: int) returns (r: Answer)
      modifies this
      ensures Rows() == Step(shows, station, old(Rows()), ReleaseWorkspace(u, show))
      ensures r.Ok? ==> Rows() == State(None, old(sessions), [], Automation)
      ensures r.Err? ==> Rows() == old(Rows())
      ensures r.Ok? <==> MayRelease(old(Rows()), u, show)
      ensures r.Err? ==> r == Err(if !OffAir(old(Rows())) || (show > 0 && show != old(claim).value.show) then 409 else 403)
    {
      NewestIsOnAir(Rows());
      if ActiveShow(Rows()).Some? {
        return Err(409);
      }
      if claim.None? {
        ClearQueueRows();
        return Ok(0);
      }
      var c := claim.value;
      if show > 0 && show != c.show {
        return Err(409);
      }
      if !u.admin && c.user != u.id && !u.May(c.show, Broadcast) && !u.May(c.show, QueueEdit) {
        return Err(403);
      }
      ClearQueueRows();
      claim := None;
      return Ok(c.show);
    }

    /** An item gets in exactly for the claimed show, by someone allowed to edit its queue, or for no
        show by an admin. It goes to the end, and the queue stays owned. */
    method Add(u: User, show: int, track: int) returns (r: Answer)
      modifies this`items
      ensures Rows() == Step(shows, station, old(Rows()), AddItem(u, show, track))
      ensures r.Err? ==> items == old(items)
      ensures PositiveIds(shows) && old(Owned(shows, station, Rows())) ==>
                && Owned(shows, station, Rows())
                && (r.Ok? <==> (u.admin && show <= 0)
                               || (ActsForClaim(old(Rows()), show) && (u.admin || u.May(claim.value.show, QueueEdit))))
                && (r.Ok? ==> items == old(items) + [Item(track, if ActsForClaim(old(Rows()), show) then claim.value.show else 0)])
    {
      if PositiveIds(shows) && Owned(shows, station, Rows()) {
        PermissionExactly(shows, station, Rows(), u, QueueEdit, show);
        AddKeeps(shows, station, Rows(), u, show, track);
      }
      r := WorkspacePermission(shows, station, Rows(), u, QueueEdit, show);
      if r.Ok? {
        items := items + [Item(track, r.show)];
      }
    }

    method Move(u: User, show: int, from: int, to: int) returns (r: Answer)
      modifies this`items
      ensures Rows() == Step(shows, station, old(Rows()), MoveItem(u, show, from, to))
      ensures r.Ok? ==> 0 <= from < old(|items|) && IsMoved(old(items), items, from, to)
      ensures r.Err? ==> items == old(items)
      ensures PositiveIds(shows) && old(Owned(shows, station, Rows())) ==>
                && (r.Ok? <==> Edits(old(Rows()), u, show, QueueEdit) && 0 <= from < old(|items|))
                && (Edits(old(Rows()), u, show, QueueEdit) && !(0 <= from < old(|items|)) ==> r == Err(404))
    {
      NewestIsOnAir(Rows());
      if PositiveIds(shows) && Owned(shows, station, Rows()) {
        PermissionExactly(shows, station, Rows(), u, QueueEdit, show);
      }
      if 0 <= from < |items| {
        MovedExactly(items, from, to);
      }
      r := WorkspacePermission(shows, station, Rows(), u, QueueEdit, show);
      if r.Err? {
        return;
      }
      if from < 0 || from >= |items| {
        return Err(404);
      }
      var at := if to < 0 then 0 else if to >= |items| then |items| - 1 else to;
      var row, rest := items[from], items[..from] + items[from + 1..];
      items := rest[..at] + [row] + rest[at..];
    }

    /** Nothing but a free station, the caller's claim and enough tracks lets a show go live. */
    method StartLive(u: User, show: int, minTracks: int) returns (r: Answer)
      requires Owned(shows, station, Rows())
      modifies this`sessions, this`source
      ensures Rows() == Step(shows, station, old(Rows()), GoLive(u, show, minTracks))
      ensures r.Ok? ==> ActiveShow(Rows()) == Some(show) && show in shows && shows[show] == station
                        && claim == old(claim) && |items| >= minTracks && source == Host
      ensures r.Err? ==> Rows() == old(Rows())
      ensures r.Ok? <==> MayGoLive(shows, old(Rows()), u, show, minTracks)
      ensures r.Ok? ==> sessions == old(sessions) + [Session(show, u.id, GoingLive)]
      ensures r == Err(403) <==> !u.admin && (show, Broadcast) !in u.grants
      ensures r == Err(404) <==> (u.admin || (show, Broadcast) in u.grants) && show !in shows
      ensures r == Err(400) <==> |items| < minTracks && MayGoLive(shows, old(Rows()), u, show, 0)
      ensures r.Ok? || r in {Err(400), Err(403), Err(404), Err(409)}
    {
      NewestIsOnAir(Rows());
      if !u.admin && !u.May(show, Broadcast) {
        return Err(403);
      }
      if show !in shows {
        return Err(404);
      }
      if ActiveShow(Rows()).Some? {
        return Err(409);
      }
      if claim.None? || claim.value.show != show {
        return Err(409);
      }
      if |items| < minTracks {
        return Err(400);
      }
      AppendActive(Rows(), show, u.id);
      sessions := sessions + [Session(show, u.id, GoingLive)];
      source := Host;
      return Ok(show);
    }

    /** A break is for a live show, an end for one that has begun. */
    method Cue(u: User, show: int, ending: bool) returns (r: Answer)
      modifies this`sessions
      ensures Rows() == Step(shows, station, old(Rows()), if ending then EndLive(u, show) else GoBreak(u, show))
      ensures r.Err? ==> Rows() == old(Rows())
      ensures r.Ok? <==> exists i :: MayCue(shows, old(Rows()), u, show, ending, i)
      ensures forall i :: MayCue(shows, old(Rows()), u, show, ending, i) ==>
                sessions == old(sessions)[i := Session(show, old(sessions)[i].user, if ending then OutroPlaying else BreakOutro)]
      ensures r == Err(403) <==> !u.admin && (show, if ending then EndShow else BreakControl) !in u.grants
      ensures r == Err(404) <==> (u.admin || (show, if ending then EndShow else BreakControl) in u.grants) && show !in shows
      ensures r.Ok? || r in {Err(400), Err(403), Err(404)}
    {
      NewestIsOnAir(Rows());
      if !u.admin && !u.May(show, if ending then EndShow else BreakControl) {
        return Err(403);
      }
      if show !in shows {
        return Err(404);
      }
      var active := ActiveSession(sessions);
      if active.None? || sessions[active.value].show != show {
        return Err(400);
      }
      var from := if ending then {Live, OnBreak, BreakOutro, BreakIntro} else {Live};
      if sessions[active.value].status !in from {
        return Err(400);
      }
      assert MayCue(shows, Rows(), u, show, ending, active.value);
      var to := if ending then OutroPlaying else BreakOutro;
      sessions := sessions[active.value := sessions[active.value].(status := to)];
      return Ok(show);
    }
  }
}
