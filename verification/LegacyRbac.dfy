/** Self-repair of the legacy role tables (app/db.py) and the read-only second `init_db` behind it. */
module LegacyRbac {
  import opened Wrappers

  /** The built-in tables: template permissions by template name, template name by user role, show
      permissions by show role, and the show permissions that exist. */
  datatype Config = Config(permissions: map<string, set<string>>, roleTemplate: map<string, string>,
                           showRole: map<string, set<string>>, showKeys: set<string>)

  const SHOW_KEYS := {"show.broadcast", "show.queue_edit", "show.jingle_manage", "show.break_control",
                      "show.end", "show.guest_manage", "show.guest_record"}

  const SHOW_ROLES := map[
    "dj" := {"show.broadcast", "show.queue_edit", "show.jingle_manage", "show.break_control", "show.end"},
    "producer" := {"show.queue_edit", "show.jingle_manage", "show.break_control"}]

  datatype Template = Template(name: string, description: string, system: bool, active: bool)

  datatype UserRow = UserRow(id: int, role: string)

  /** `keysJson` is the explicit permission list of an assignment, empty if there is none. */
  datatype ShowRow = ShowRow(show: int, user: int, role: string, keysJson: string)

  datatype Rbac = Rbac(templates: map<int, Template>, nextTemplate: int, templateKeys: set<(int, string)>,
                       users: seq<UserRow>, userTemplates: set<(int, int)>,
                       assignments: seq<ShowRow>, showKeys: set<(int, int, string)>, marked: bool)

  /** The schema's own constraints: template names are unique and new ids are new. */
  predicate WellFormed(db: Rbac) {
    && (forall a, b :: a in db.templates && b in db.templates && db.templates[a].name == db.templates[b].name ==> a == b)
    && (forall id :: id in db.templates ==> id < db.nextTemplate)
  }

  function Description(name: string): string {
    name + " compatibility template"
  }

  function KeysOf(db: Rbac, id: int): set<string> {
    set p | p in db.templateKeys && p.0 == id :: p.1
  }

  /** Template `id` is the legacy template `name` as it should be. */
  predicate IsSettled(db: Rbac, c: Config, name: string, id: int) {
    && id in db.templates && name in c.permissions
    && db.templates[id] == Template(name, Description(name), true, true)
    && KeysOf(db, id) == c.permissions[name]
  }

  predicate TemplateSettled(db: Rbac, c: Config, name: string) {
    exists id :: id in db.templates && IsSettled(db, c, name, id)
  }

  predicate UserSettled(db: Rbac, c: Config, u: UserRow) {
    u.role in c.roleTemplate ==>
      exists id :: id in db.templates && db.templates[id].name == c.roleTemplate[u.role] && (u.id, id) in db.userTemplates
  }

  /** The backfill looks at assignments of a legacy role with no explicit list. */
  predicate Backfills(c: Config, r: ShowRow) {
    r.role in c.showRole && r.keysJson == ""
  }

  predicate ShowSettled(db: Rbac, c: Config, r: ShowRow) {
    Backfills(c, r) ==> forall k :: k in c.showRole[r.role] ==> (r.show, r.user, k) in db.showKeys
  }

  /** `_legacy_rbac_needs_sync`. */
  predicate NeedsSync(db: Rbac, c: Config) {
    || !db.marked
    || (exists name :: name in c.permissions && !TemplateSettled(db, c, name))
    || (exists u :: u in db.users && !UserSettled(db, c, u))
    || (exists r :: r in db.assignments && !ShowSettled(db, c, r))
  }

  predicate ConfigOk(c: Config) {
    forall role :: role in c.roleTemplate ==> c.roleTemplate[role] in c.permissions
  }

  /** Every existing permission of a backfilled assignment has been granted. */
  predicate Granted(db: Rbac, c: Config, r: ShowRow) {
    Backfills(c, r) ==> forall k :: k in c.showRole[r.role] * c.showKeys ==> (r.show, r.user, k) in db.showKeys
  }

  /** The only rows a sync cannot settle: an assignment that needs a permission which does not exist
      and was never granted. */
  predicate Unsettlable(db: Rbac, c: Config, r: ShowRow) {
    Backfills(c, r) && exists k :: k in c.showRole[r.role] && k !in c.showKeys && (r.show, r.user, k) !in db.showKeys
  }

  /** What a sync must not disturb: other templates and their permissions, and every grant made. */
  ghost predicate Keeps(was: Rbac, now: Rbac, c: Config) {
    && (forall id :: id in was.templates ==> id in now.templates && now.templates[id].name == was.templates[id].name)
    && (forall id :: id in was.templates && was.templates[id].name !in c.permissions ==>
          now.templates[id] == was.templates[id] && KeysOf(now, id) == KeysOf(was, id))
    && was.userTemplates <= now.userTemplates && was.showKeys <= now.showKeys
    && now.users == was.users && now.assignments == was.assignments
  }

  /** A user-template pair the roles call for. */
  predicate UserDue(db: Rbac, c: Config, p: (int, int)) {
    exists u :: u in db.users && u.id == p.0 && u.role in c.roleTemplate
                && p.1 in db.templates && db.templates[p.1].name == c.roleTemplate[u.role]
  }

  /** A show grant the backfill calls for. */
  predicate ShowDue(db: Rbac, c: Config, p: (int, int, string)) {
    exists r :: r in db.assignments && Backfills(c, r) && p.0 == r.show && p.1 == r.user
                && p.2 in c.showRole[r.role] * c.showKeys
  }

  /** A sync grants nothing that is not due. */
  predicate GrantsOnlyDue(was: Rbac, now: Rbac, c: Config) {
    && (forall p :: p in now.userTemplates && p !in was.userTemplates ==> UserDue(now, c, p))
    && (forall p :: p in now.showKeys && p !in was.showKeys ==> ShowDue(now, c, p))
  }

  // ---- What a repaired database holds -------------------------------------------------------

  /** An active system template of this name and description with exactly these permissions. */
  ghost predicate HasTemplate(db: Rbac, name: string, permissions: set<string>) {
    exists id :: id in db.templates && db.templates[id] == Template(name, name + " compatibility template", true, true)
                 && forall k :: (id, k) in db.templateKeys <==> k in permissions
  }

  /** The user has a template of this name. */
  ghost predicate HoldsTemplate(db: Rbac, user: int, name: string) {
    exists id :: id in db.templates && db.templates[id].name == name && (user, id) in db.userTemplates
  }

  ghost predicate HasGrants(db: Rbac, r: ShowRow, keys: set<string>) {
    forall k :: k in keys ==> (r.show, r.user, k) in db.showKeys
  }

  /** Every built-in template is there as it should be, every user with a legacy role holds its template, and
      every assignment of a legacy show role without a list of its own has the permissions that exist. */
  ghost predicate Repaired(db: Rbac, c: Config) {
    && db.marked
    && (forall name :: name in c.permissions ==> HasTemplate(db, name, c.permissions[name]))
    && (forall u :: u in db.users && u.role in c.roleTemplate ==> HoldsTemplate(db, u.id, c.roleTemplate[u.role]))
    && (forall r :: r in db.assignments && r.role in c.showRole && r.keysJson == "" ==>
          HasGrants(db, r, c.showRole[r.role] * c.showKeys))
  }

  /** Every such assignment has, of the permissions that do not exist, those its role names as well. */
  ghost predicate HasMissingOnes(db: Rbac, c: Config) {
    forall r :: r in db.assignments && r.role in c.showRole && r.keysJson == "" ==>
      HasGrants(db, r, c.showRole[r.role] - c.showKeys)
  }

  /** The check asks for a sync exactly when something of this is missing. */
  lemma NeedsSyncExactly(db: Rbac, c: Config)
    ensures !NeedsSync(db, c) <==> Repaired(db, c) && HasMissingOnes(db, c)
  {
    forall name | name in c.permissions
      ensures TemplateSettled(db, c, name) <==> HasTemplate(db, name, c.permissions[name])
    {
      TemplateSettledExactly(db, c, name);
    }
    assert forall u :: u in db.users && u.role in c.roleTemplate ==>
      (UserSettled(db, c, u) <==> HoldsTemplate(db, u.id, c.roleTemplate[u.role]));
    assert forall r :: r in db.assignments && r.role in c.showRole && r.keysJson == "" ==>
      (ShowSettled(db, c, r) <==> HasGrants(db, r, c.showRole[r.role] * c.showKeys)
                                  && HasGrants(db, r, c.showRole[r.role] - c.showKeys));
  }

  lemma TemplateSettledExactly(db: Rbac, c: Config, name: string)
    requires name in c.permissions
    ensures TemplateSettled(db, c, name) <==> HasTemplate(db, name, c.permissions[name])
  {
    forall id ensures KeysOf(db, id) == c.permissions[name]
                      <==> forall k :: (id, k) in db.templateKeys <==> k in c.permissions[name] {
      assert forall k :: k in KeysOf(db, id) <==> (id, k) in db.templateKeys;
    }
    if id :| id in db.templates && IsSettled(db, c, name, id) {
      assert db.templates[id] == Template(name, name + " compatibility template", true, true);
    }
    if id :| id in db.templates && db.templates[id] == Template(name, name + " compatibility template", true, true)
             && forall k :: (id, k) in db.templateKeys <==> k in c.permissions[name] {
      assert IsSettled(db, c, name, id);
    }
  }

  // ---- What each part of the sync does ------------------------------------------------------

  /** The id of the template with this name, if there is one. */
  function IdOf(db: Rbac, name: string): (r: Option<int>)
    requires WellFormed(db)
    ensures r.Some? ==> r.value in db.templates && db.templates[r.value].name == name
    ensures r.None? ==> forall id :: id in db.templates ==> db.templates[id].name != name
  {
    if exists id :: id in db.templates && db.templates[id].name == name then
      (var id :| id in db.templates && db.templates[id].name == name; Some(id))
    else None
  }

  lemma KeysReplaced(db: Rbac, id: int, keys: set<string>)
    ensures var now := db.(templateKeys := (set p | p in db.templateKeys && p.0 != id) + (set k | k in keys :: (id, k)));
            && KeysOf(now, id) == keys
            && forall x :: x != id ==> KeysOf(now, x) == KeysOf(db, x)
  {}

  /** A row written for `name` under `id`, the only id that name has or gets. */
  ghost predicate SeededBy(db: Rbac, now: Rbac, c: Config, name: string, id: int)
    requires name in c.permissions
  {
    && (id in db.templates ==> db.templates[id].name == name)
    && (forall x :: x in db.templates && db.templates[x].name == name ==> x == id)
    && now == db.(templates := db.templates[id := Template(name, Description(name), true, true)],
                  nextTemplate := now.nextTemplate,
                  templateKeys := now.templateKeys)
    && id < now.nextTemplate && db.nextTemplate <= now.nextTemplate
    && KeysOf(now, id) == c.permissions[name] && (forall x :: x != id ==> KeysOf(now, x) == KeysOf(db, x))
  }

  lemma SeedKeeps(db: Rbac, now: Rbac, c: Config, name: string, id: int)
    requires WellFormed(db) && name in c.permissions && SeededBy(db, now, c, name, id)
    ensures WellFormed(now) && Keeps(db, now, c) && IsSettled(now, c, name, id)
    ensures forall other, x :: other != name && IsSettled(db, c, other, x) ==> IsSettled(now, c, other, x)
  {}

  lemma KeepsTransitive(a: Rbac, b: Rbac, d: Rbac, c: Config)
    requires Keeps(a, b, c) && Keeps(b, d, c)
    ensures Keeps(a, d, c)
  {}

  /** A template id a role resolves to, once the templates are seeded. */
  predicate AllTemplatesSettled(db: Rbac, c: Config) {
    forall name :: name in c.permissions ==> TemplateSettled(db, c, name)
  }

  const SCHEMA_VERSION := 14

  /** One database file. `backups` and `commits` count what `init_db` does to it. */
  class Store {
    var db: Rbac
    const c: Config
    var version: int
    var bootstrapped: bool
    var backups: nat
    var commits: nat

    constructor (db: Rbac, c: Config, version: int, bootstrapped: bool)
      ensures this.db == db && this.c == c && this.version == version && this.bootstrapped == bootstrapped
      ensures backups == 0 && commits == 0
    {
      this.db, this.c, this.version, this.bootstrapped := db, c, version, bootstrapped;
      backups, commits := 0, 0;
    }

    method SeedTemplate(name: string)
      requires WellFormed(db) && name in c.permissions
      modifies this`db
      ensures exists id :: SeededBy(old(db), db, c, name, id)
    {
      var known := IdOf(db, name);
      var id := if known.Some? then known.value else db.nextTemplate;
      if known.None? {
        db := db.(templates := db.templates[id := Template(name, Description(name), true, true)], nextTemplate := id + 1);
      }
      db := db.(templates := db.templates[id := db.templates[id].(description := Description(name), system := true, active := true)]);
      KeysReplaced(db, id, c.permissions[name]);
      db := db.(templateKeys := set p | p in db.templateKeys && p.0 != id);
      db := db.(templateKeys := db.templateKeys + set k | k in c.permissions[name] :: (id, k));
      assert SeededBy(old(db), db, c, name, id);
    }

    method SeedTemplates(names: seq<string>)
      requires WellFormed(db) && forall name :: name in names <==> name in c.permissions
      modifies this`db
      ensures WellFormed(db) && Keeps(old(db), db, c) && AllTemplatesSettled(db, c)
      ensures db.userTemplates == old(db.userTemplates) && db.showKeys == old(db.showKeys) && db.marked == old(db.marked)
    {
      for i := 0 to |names|
        invariant WellFormed(db) && Keeps(old(db), db, c)
        invariant db.userTemplates == old(db.userTemplates) && db.showKeys == old(db.showKeys) && db.marked == old(db.marked)
        invariant forall j :: 0 <= j < i ==> TemplateSettled(db, c, names[j])
      {
        ghost var was := db;
        assert names[i] in names;
        SeedTemplate(names[i]);
        ghost var id :| SeededBy(was, db, c, names[i], id);
        SeedKeeps(was, db, c, names[i], id);
        KeepsTransitive(old(db), was, db, c);
      }
    }

    /** One user's assignment, where the template has a row. */
    method AssignTemplate(u: UserRow)
      requires WellFormed(db) && AllTemplatesSettled(db, c) && ConfigOk(c) && u in db.users && u.role in c.roleTemplate
      modifies this`db
      ensures db == old(db).(userTemplates := db.userTemplates) && old(db.userTemplates) <= db.userTemplates
      ensures UserSettled(db, c, u)
      ensures forall p :: p in db.userTemplates && p !in old(db.userTemplates) ==> UserDue(db, c, p)
    {
      var id := IdOf(db, c.roleTemplate[u.role]);
      assert TemplateSettled(db, c, c.roleTemplate[u.role]);
      if id.Some? {
        db := db.(userTemplates := db.userTemplates + {(u.id, id.value)});
      }
    }

    method BackfillUsers()
      requires WellFormed(db) && AllTemplatesSettled(db, c) && ConfigOk(c)
      modifies this`db
      ensures db == old(db).(userTemplates := db.userTemplates) && old(db.userTemplates) <= db.userTemplates
      ensures forall u :: u in db.users ==> UserSettled(db, c, u)
      ensures forall p :: p in db.userTemplates && p !in old(db.userTemplates) ==> UserDue(db, c, p)
    {
      for i := 0 to |db.users|
        invariant db == old(db).(userTemplates := db.userTemplates) && old(db.userTemplates) <= db.userTemplates
        invariant forall j :: 0 <= j < i ==> UserSettled(db, c, db.users[j])
        invariant forall p :: p in db.userTemplates && p !in old(db.userTemplates) ==> UserDue(db, c, p)
      {
        var u := db.users[i];
        if u.role in c.roleTemplate {
          AssignTemplate(u);
        }
      }
    }

    method BackfillShows()
      modifies this`db
      ensures db == old(db).(showKeys := db.showKeys) && old(db.showKeys) <= db.showKeys
      ensures forall r :: r in db.assignments ==> Granted(db, c, r)
      ensures forall p :: p in db.showKeys && p !in old(db.showKeys) ==> ShowDue(db, c, p)
    {
      for i := 0 to |db.assignments|
        invariant db == old(db).(showKeys := db.showKeys) && old(db.showKeys) <= db.showKeys
        invariant forall j :: 0 <= j < i ==> Granted(db, c, db.assignments[j])
        invariant forall p :: p in db.showKeys && p !in old(db.showKeys) ==> ShowDue(db, c, p)
      {
        var r := db.assignments[i];
        if r.keysJson == "" && r.role in c.showRole {
          db := db.(showKeys := db.showKeys + set k | k in c.showRole[r.role] && k in c.showKeys :: (r.show, r.user, k));
        }
      }
    }

    /** The repair: whatever the tables held, only unsettlable assignments are left to sync. */
    method Sync(names: seq<string>)
      requires WellFormed(db) && ConfigOk(c) && forall name :: name in names <==> name in c.permissions
      modifies this`db
      ensures WellFormed(db) && Keeps(old(db), db, c) && GrantsOnlyDue(old(db), db, c) && Repaired(db, c)
      ensures NeedsSync(db, c) <==> exists r :: r in old(db.assignments) && Unsettlable(old(db), c, r)
    {
      SeedTemplates(names);
      ghost var seeded := db;
      BackfillUsers();
      BackfillShows();
      db := db.(marked := true);
      SyncLeaves(old(db), seeded, db, c);
      SyncRepairs(db, c);
    }

    method SyncIfNeeded(names: seq<string>)
      requires WellFormed(db) && ConfigOk(c) && forall name :: name in names <==> name in c.permissions
      modifies this`db
      ensures WellFormed(db) && Keeps(old(db), db, c) && GrantsOnlyDue(old(db), db, c) && Repaired(db, c)
      ensures NeedsSync(db, c) <==> exists r :: r in old(db.assignments) && Unsettlable(old(db), c, r)
    {
      NeedsSyncExactly(db, c);
      if NeedsSync(db, c) {
        Sync(names);
      } else {
        SettledHasNoneLeft(db, c);
      }
    }

    /** `init_db` has nothing to write. */
    predicate Quiet()
      reads this
    {
      version > SCHEMA_VERSION || (version == SCHEMA_VERSION && bootstrapped && !NeedsSync(db, c))
    }

    /** The first bootstrap of a database; `admin` is the default administrator if none existed. */
    method InitDb(names: seq<string>, existing: bool, admin: Option<UserRow>)
      requires WellFormed(db) && ConfigOk(c) && forall name :: name in names <==> name in c.permissions
      modifies this
      ensures WellFormed(db)
      ensures old(Quiet()) ==> unchanged(this)
      ensures !old(Quiet()) ==>
                && version == SCHEMA_VERSION && bootstrapped && commits == old(commits) + 3
                && backups == old(backups) + (if existing then 1 else 0)
                && Keeps(old(db).(users := db.users), db, c) && GrantsOnlyDue(old(db).(users := db.users), db, c)
                && db.users == old(db.users) + (if admin.Some? then [admin.value] else [])
      ensures Quiet() <==> old(Quiet()) || !exists r :: r in old(db.assignments) && Unsettlable(old(db), c, r)
      ensures old(version > 14 || (version == 14 && bootstrapped && Repaired(db, c) && HasMissingOnes(db, c))) <==> old(Quiet())
      ensures version > 14 || (version == 14 && bootstrapped && Repaired(db, c))
    {
      NeedsSyncExactly(db, c);
      if version > SCHEMA_VERSION {
        return;
      }
      if version == SCHEMA_VERSION && bootstrapped && !NeedsSync(db, c) {
        return;
      }
      if existing {
        backups := backups + 1;
      }
      Bootstrap(names, admin);
    }

    /** The bootstrap itself: the schema with its role sync, the system defaults, the mark. */
    method Bootstrap(names: seq<string>, admin: Option<UserRow>)
      requires WellFormed(db) && ConfigOk(c) && forall name :: name in names <==> name in c.permissions
      modifies this`db, this`commits, this`bootstrapped, this`version
      ensures WellFormed(db) && Repaired(db, c)
      ensures version == SCHEMA_VERSION && bootstrapped && commits == old(commits) + 3
      ensures Keeps(old(db).(users := db.users), db, c) && GrantsOnlyDue(old(db).(users := db.users), db, c)
      ensures db.users == old(db.users) + (if admin.Some? then [admin.value] else [])
      ensures NeedsSync(db, c) <==> exists r :: r in old(db.assignments) && Unsettlable(old(db), c, r)
    {
      if admin.Some? {
        db := db.(users := db.users + [admin.value]);
      }
      ghost var booted := db;
      SyncIfNeeded(names);
      assert booted == old(db).(users := db.users);
      assert forall r :: Unsettlable(booted, c, r) <==> Unsettlable(old(db), c, r);
      commits := commits + 1;
      // The system defaults commit by themselves.
      commits := commits + 1;
      bootstrapped, version := true, SCHEMA_VERSION;
      commits := commits + 1;
    }

    /** Endpoints call `init_db` again and again: from the second call on it writes nothing, backs up
        nothing and changes nothing, when every required show permission exists. */
    method InitTwice(names: seq<string>, first: Option<UserRow>, second: Option<UserRow>)
      requires WellFormed(db) && ConfigOk(c) && forall name :: name in names <==> name in c.permissions
      requires c.showRole == SHOW_ROLES && c.showKeys == SHOW_KEYS
      modifies this
      ensures Quiet() && (version > 14 || (version == 14 && bootstrapped && Repaired(db, c)))
      ensures commits <= old(commits) + 3 && backups <= old(backups) + 1
    {
      LegacyRolesSettle(db, c);
      InitDb(names, true, first);
      InitDb(names, true, second);
    }
  }

  lemma SyncLeaves(was: Rbac, seeded: Rbac, now: Rbac, c: Config)
    requires Keeps(was, seeded, c) && WellFormed(seeded) && AllTemplatesSettled(seeded, c)
    requires seeded.showKeys == was.showKeys
    requires now == seeded.(userTemplates := now.userTemplates, showKeys := now.showKeys, marked := true)
    requires seeded.userTemplates <= now.userTemplates && seeded.showKeys <= now.showKeys
    requires forall u :: u in now.users ==> UserSettled(now, c, u)
    requires forall r :: r in now.assignments ==> Granted(now, c, r)
    requires GrantsOnlyDue(was, now, c)
    ensures WellFormed(now) && Keeps(was, now, c)
    ensures NeedsSync(now, c) <==> exists r :: r in was.assignments && Unsettlable(was, c, r)
  {}

  lemma SyncRepairs(db: Rbac, c: Config)
    requires db.marked && AllTemplatesSettled(db, c)
    requires (forall u :: u in db.users ==> UserSettled(db, c, u)) && (forall r :: r in db.assignments ==> Granted(db, c, r))
    ensures Repaired(db, c)
  {
    forall name | name in c.permissions ensures HasTemplate(db, name, c.permissions[name]) {
      TemplateSettledExactly(db, c, name);
    }
  }

  lemma SettledHasNoneLeft(db: Rbac, c: Config)
    requires !NeedsSync(db, c)
    ensures forall r :: r in db.assignments ==> !Unsettlable(db, c, r)
  {}

  /** The built-in show roles ask for existing permissions only. */
  lemma LegacyRolesSettle(db: Rbac, c: Config)
    requires c.showRole == SHOW_ROLES && c.showKeys == SHOW_KEYS
    ensures forall r :: !Unsettlable(db, c, r)
  {}
}
