/** The retention ledger of schema backups (app/db.py, `_record_schema_backup`): one JSON list shared
    by the databases of a directory, and the backup files it speaks for. */
module BackupLedger {
  import opened Wrappers

  datatype Record = Record(path: string, database: string)

  const DEFAULT_RETENTION := 8

  /** The configured retention; text that is no number reads as None. */
  function Retention(raw: Option<int>): (n: nat)
    ensures 1 <= n <= 64
    ensures raw.None? ==> n == 8
    ensures raw.Some? && 1 <= raw.value <= 64 ==> n == raw.value
    ensures raw.Some? && raw.value < 1 ==> n == 1
    ensures raw.Some? && raw.value > 64 ==> n == 64
  {
    match raw
    case None => DEFAULT_RETENTION
    case Some(v) => if v < 1 then 1 else if v > 64 then 64 else v
  }

  /** The records of one database, or of the others, in ledger order. */
  function Select(s: seq<Record>, database: string, mine: bool): seq<Record> {
    if s == [] then []
    else (if (s[0].database == database) == mine then [s[0]] else []) + Select(s[1..], database, mine)
  }

  /** A record stays if it is another database's, or fewer than n newer ones of its own follow. */
  predicate Stays(s: seq<Record>, database: string, n: nat)
    requires s != []
  {
    s[0].database != database || |Select(s[1..], database, true)| < n
  }

  function Split(s: seq<Record>, database: string, n: nat, staying: bool): seq<Record> {
    if s == [] then []
    else (if Stays(s, database, n) == staying then [s[0]] else []) + Split(s[1..], database, n, staying)
  }

  function Retained(s: seq<Record>, database: string, n: nat): seq<Record> { Split(s, database, n, true) }

  function Removed(s: seq<Record>, database: string, n: nat): seq<Record> { Split(s, database, n, false) }

  function Newest(s: seq<Record>, n: nat): seq<Record> {
    if |s| <= n then s else s[|s| - n..]
  }

  lemma SelectCons(r: Record, s: seq<Record>, database: string, mine: bool)
    ensures Select([r] + s, database, mine)
            == if (r.database == database) == mine then [r] + Select(s, database, mine) else Select(s, database, mine)
  {}

  lemma SplitCons(s: seq<Record>, database: string, n: nat, staying: bool)
    requires s != []
    ensures Split(s, database, n, staying)
            == if Stays(s, database, n) == staying then [s[0]] + Split(s[1..], database, n, staying)
               else Split(s[1..], database, n, staying)
  {}

  /** The ledger keeps the newest n records of the database ... */
  lemma {:induction false} RetainedIsNewest(s: seq<Record>, database: string, n: nat)
    ensures Select(Retained(s, database, n), database, true) == Newest(Select(s, database, true), n)
  {
    if s != [] {
      var rest := s[1..];
      var later := Select(rest, database, true);
      RetainedIsNewest(rest, database, n);
      SelectCons(s[0], rest, database, true);
      SelectCons(s[0], Retained(rest, database, n), database, true);
      SplitCons(s, database, n, true);
      assert s == [s[0]] + rest;
      if s[0].database == database {
        NewestCons(s[0], later, n);
      }
    }
  }

  lemma NewestCons(r: Record, s: seq<Record>, n: nat)
    ensures Newest([r] + s, n) == if |s| < n then [r] + Newest(s, n) else Newest(s, n)
  {}

  /** ... and every record of the other databases, in order. */
  lemma {:induction false} OthersStay(s: seq<Record>, database: string, n: nat)
    ensures Select(Retained(s, database, n), database, false) == Select(s, database, false)
  {
    if s != [] {
      var rest := s[1..];
      OthersStay(rest, database, n);
      SelectCons(s[0], rest, database, false);
      SelectCons(s[0], Retained(rest, database, n), database, false);
      assert s == [s[0]] + rest;
      SplitCons(s, database, n, true);
    }
  }

  /** Recording keeps the new backup. */
  lemma {:induction false} NewRecordStays(s: seq<Record>, r: Record, n: nat)
    requires n >= 1
    ensures r in Retained(s + [r], r.database, n)
  {
    if s != [] {
      assert (s + [r])[1..] == s[1..] + [r];
      NewRecordStays(s[1..], r, n);
    } else {
      assert s + [r] == [r];
      assert Select([], r.database, true) == [];
    }
  }

  predicate UniquePaths(s: seq<Record>) {
    forall i, j :: 0 <= i < j < |s| ==> s[i].path != s[j].path
  }

  function PathsOf(s: seq<Record>): set<string> {
    set r | r in s :: r.path
  }

  /** Splitting loses no record. */
  lemma {:induction false} SplitKeepsAll(s: seq<Record>, database: string, n: nat)
    ensures forall r :: r in s <==> r in Retained(s, database, n) || r in Removed(s, database, n)
  {
    if s != [] {
      SplitKeepsAll(s[1..], database, n);
      assert s == [s[0]] + s[1..];
    }
  }

  /** With unique paths no kept record shares its file with a dropped one. */
  lemma {:induction false} SplitApart(s: seq<Record>, database: string, n: nat)
    requires UniquePaths(s)
    ensures UniquePaths(Retained(s, database, n))
    ensures PathsOf(Retained(s, database, n)) !! PathsOf(Removed(s, database, n))
  {
    if s != [] {
      var rest := s[1..];
      forall i, j | 0 <= i < j < |rest| ensures rest[i].path != rest[j].path {
        assert s[i + 1] == rest[i] && s[j + 1] == rest[j];
      }
      SplitApart(rest, database, n);
      SplitKeepsAll(rest, database, n);
      forall r | r in rest ensures r.path != s[0].path {
        var k :| 0 <= k < |rest| && rest[k] == r;
        assert s[k + 1] == r;
      }
      SplitCons(s, database, n, true);
      SplitCons(s, database, n, false);
      forall k | 0 <= k < |Retained(rest, database, n)| ensures Retained(rest, database, n)[k].path != s[0].path {
        assert Retained(rest, database, n)[k] in rest;
      }
    }
  }

  // ---- Runs ---------------------------------------------------------------------------------

  /** The ledger and the backup files on disk. */
  datatype State = State(records: seq<Record>, files: set<string>)

  /** One backup of one database: its fresh file, the retention in force, whether the ledger write
      fails, and which deletions fail or point outside the backup directory. */
  datatype Backup = Backup(database: string, path: string, retention: Option<int>, writeFails: bool, undeletable: set<string>)

  function After(s: State, b: Backup): State {
    var files := s.files + {b.path};
    if b.writeFails then s.(files := files)
    else
      var all, n := s.records + [Record(b.path, b.database)], Retention(b.retention);
      State(Retained(all, b.database, n), files - (PathsOf(Removed(all, b.database, n)) - b.undeletable))
  }

  function Run(s: State, backups: seq<Backup>): State {
    if backups == [] then s else After(Run(s, backups[..|backups| - 1]), backups[|backups| - 1])
  }

  /** Backup names carry a time stamp and a random token: no two are the same, and none is in use. */
  predicate FreshPaths(s: State, backups: seq<Backup>) {
    && (forall i :: 0 <= i < |backups| ==> backups[i].path !in s.files && backups[i].path !in PathsOf(s.records))
    && (forall i, j :: 0 <= i < j < |backups| ==> backups[i].path != backups[j].path)
  }

  function UsedPaths(s: State, backups: seq<Backup>): set<string> {
    s.files + PathsOf(s.records) + set b | b in backups :: b.path
  }

  /** Every record on the ledger has its file, and no two share one. */
  predicate Backed(s: State) {
    UniquePaths(s.records) && PathsOf(s.records) <= s.files
  }

  lemma BackupKeepsFiles(s: State, b: Backup)
    requires Backed(s) && b.path !in s.files
    ensures Backed(After(s, b)) && After(s, b).files <= s.files + {b.path}
  {
    var all, n := s.records + [Record(b.path, b.database)], Retention(b.retention);
    UniqueWithNew(s, b);
    SplitKeepsAll(all, b.database, n);
    SplitApart(all, b.database, n);
    forall r | r in Retained(all, b.database, n) ensures r.path in s.files + {b.path} && r.path !in PathsOf(Removed(all, b.database, n)) {
      assert r in all;
      assert r in s.records ==> r.path in PathsOf(s.records);
    }
  }

  /** Over any run of backups of any databases, with changing retention and any failures: every
      record on the ledger still has its file. */
  lemma {:induction false} RunKeepsFiles(s: State, backups: seq<Backup>)
    requires Backed(s) && FreshPaths(s, backups)
    ensures Backed(Run(s, backups)) && Run(s, backups).files <= UsedPaths(s, backups)
  {
    if backups != [] {
      var front, b := backups[..|backups| - 1], backups[|backups| - 1];
      RunKeepsFiles(s, front);
      assert backups == front + [b];
      forall x | x in front ensures x.path != b.path {
        var k :| 0 <= k < |front| && front[k] == x;
        assert backups[k] == x;
      }
      BackupKeepsFiles(Run(s, front), b);
    }
  }

  /** A file no record names is never deleted: once a removed record's deletion has failed, no later
      backup retries it. */
  lemma {:induction false} OrphansStay(s: State, backups: seq<Backup>, orphan: string)
    requires orphan in s.files && orphan !in PathsOf(s.records)
    requires forall b :: b in backups ==> b.path != orphan
    ensures orphan in Run(s, backups).files && orphan !in PathsOf(Run(s, backups).records)
  {
    if backups != [] {
      var front, b := backups[..|backups| - 1], backups[|backups| - 1];
      OrphansStay(s, front, orphan);
      var t := Run(s, front);
      var all, n := t.records + [Record(b.path, b.database)], Retention(b.retention);
      SplitKeepsAll(all, b.database, n);
      forall r | r in all ensures r.path != orphan {
        assert r in t.records ==> r.path in PathsOf(t.records);
      }
    }
  }

  /** The records a backup takes off the ledger. */
  function Dropped(s: State, b: Backup): seq<Record> {
    Removed(s.records + [Record(b.path, b.database)], b.database, Retention(b.retention))
  }

  /** A dropped record is off the ledger for good, and its file is left exactly when its deletion fails. */
  lemma DroppedFileStaysExactly(s: State, b: Backup, r: Record)
    requires Backed(s) && b.path !in s.files && !b.writeFails && r in Dropped(s, b)
    ensures r.path in After(s, b).files <==> r.path in b.undeletable
    ensures r.path !in PathsOf(After(s, b).records) && r.path in s.files
  {
    var all, n := s.records + [Record(b.path, b.database)], Retention(b.retention);
    UniqueWithNew(s, b);
    SplitKeepsAll(all, b.database, n);
    SplitApart(all, b.database, n);
    NewRecordStays(s.records, Record(b.path, b.database), n);
    assert r in all && r.path in PathsOf(Removed(all, b.database, n));
    assert b.path in PathsOf(Retained(all, b.database, n)) by {
      assert Record(b.path, b.database).path == b.path;
    }
    assert r.path != b.path && r in s.records;
  }

  lemma UniqueWithNew(s: State, b: Backup)
    requires Backed(s) && b.path !in s.files
    ensures UniquePaths(s.records + [Record(b.path, b.database)])
  {
    var all := s.records + [Record(b.path, b.database)];
    forall i, j | 0 <= i < j < |all| ensures all[i].path != all[j].path {
      assert all[i] in s.records && all[i].path in PathsOf(s.records);
    }
  }

  /** Over any later run: the file of a dropped record is still there exactly when the one deletion it
      gets failed. */
  lemma FailedDeletionIsFinal(s: State, b: Backup, r: Record, later: seq<Backup>)
    requires Backed(s) && b.path !in s.files && !b.writeFails && r in Dropped(s, b)
    requires forall x :: x in later ==> x.path != r.path
    ensures r.path in Run(After(s, b), later).files <==> r.path in b.undeletable
  {
    DroppedFileStaysExactly(s, b, r);
    if r.path in b.undeletable {
      OrphansStay(After(s, b), later, r.path);
    } else {
      RunAddsOnlyItsOwn(After(s, b), later, r.path);
    }
  }

  lemma {:induction false} RunAddsOnlyItsOwn(s: State, backups: seq<Backup>, path: string)
    requires path !in s.files && forall b :: b in backups ==> b.path != path
    ensures path !in Run(s, backups).files
  {
    if backups != [] {
      RunAddsOnlyItsOwn(s, backups[..|backups| - 1], path);
      assert backups[|backups| - 1] in backups;
    }
  }

  /** What the last backup of a run leaves on the ledger: of its database the newest records, its own the
      last of them, as many as its retention says; of the others all, in order. If the ledger write fails,
      the ledger is as it was and only the file is new. */
  lemma LastBackupExactly(s: State, front: seq<Backup>, b: Backup)
    ensures var was, e := Run(s, front), Run(s, front + [b]);
            var mine := Select(was.records, b.database, true) + [Record(b.path, b.database)];
            var n := Retention(b.retention);
            if b.writeFails then e.records == was.records && e.files == was.files + {b.path}
            else
              && Select(e.records, b.database, true) == mine[if |mine| <= n then 0 else |mine| - n..]
              && Select(e.records, b.database, false) == Select(was.records, b.database, false)
  {
    var was := Run(s, front);
    var all := was.records + [Record(b.path, b.database)];
    assert (front + [b])[..|front + [b]| - 1] == front;
    RetainedIsNewest(all, b.database, Retention(b.retention));
    OthersStay(all, b.database, Retention(b.retention));
    SelectSnoc(was.records, Record(b.path, b.database), b.database, true);
    SelectSnoc(was.records, Record(b.path, b.database), b.database, false);
  }

  /** ... and on disk: the files there were and its own, without those of the records that went, where
      their deletion works. */
  lemma LastBackupFiles(s: State, front: seq<Backup>, b: Backup)
    requires !b.writeFails
    ensures forall f :: f in Run(s, front + [b]).files <==> StaysOnDisk(Run(s, front), b, f)
  {
    assert (front + [b])[..|front + [b]| - 1] == front;
    BackupFiles(Run(s, front), b);
  }

  ghost predicate StaysOnDisk(was: State, b: Backup, f: string) {
    var mine := Select(was.records, b.database, true) + [Record(b.path, b.database)];
    && (f in was.files || f == b.path)
    && (f in b.undeletable || forall k :: 0 <= k < |mine| - Retention(b.retention) ==> mine[k].path != f)
  }

  lemma BackupFiles(was: State, b: Backup)
    requires !b.writeFails
    ensures forall f :: f in After(was, b).files <==> StaysOnDisk(was, b, f)
  {
    var n, all := Retention(b.retention), was.records + [Record(b.path, b.database)];
    var mine := Select(was.records, b.database, true) + [Record(b.path, b.database)];
    SelectSnoc(was.records, Record(b.path, b.database), b.database, true);
    assert mine == Select(all, b.database, true);
    RemovedAreOldest(all, b.database, n);
    PathsOfOldest(mine, Removed(all, b.database, n), |mine| - n);
  }

  lemma PathsOfOldest(mine: seq<Record>, gone: seq<Record>, m: int)
    requires m <= |mine| && gone == mine[..if m < 0 then 0 else m]
    ensures forall f :: f in PathsOf(gone) <==> exists k :: 0 <= k < m && mine[k].path == f
  {
    forall f ensures f in PathsOf(gone) <==> exists k :: 0 <= k < m && mine[k].path == f {
      if k :| 0 <= k < m && mine[k].path == f {
        assert gone[k] == mine[k] && gone[k] in gone;
      }
    }
  }

  lemma {:induction false} SelectSnoc(s: seq<Record>, r: Record, database: string, mine: bool)
    ensures Select(s + [r], database, mine)
            == Select(s, database, mine) + if (r.database == database) == mine then [r] else []
  {
    if s == [] {
      assert s + [r] == [r] && Select([r][1..], database, mine) == [];
    } else {
      assert (s + [r])[1..] == s[1..] + [r];
      SelectSnoc(s[1..], r, database, mine);
    }
  }

  /** The records taken off are the database's oldest. */
  lemma {:induction false} RemovedAreOldest(s: seq<Record>, database: string, n: nat)
    ensures var mine := Select(s, database, true);
            Removed(s, database, n) == if |mine| <= n then [] else mine[..|mine| - n]
  {
    if s != [] {
      var rest := s[1..];
      assert s == [s[0]] + rest;
      RemovedAreOldest(rest, database, n);
      SelectCons(s[0], rest, database, true);
      SplitCons(s, database, n, false);
      if |Select(rest, database, true)| >= n {
        FirstOf(s[0], Select(rest, database, true), n);
      }
    }
  }

  lemma FirstOf(r: Record, s: seq<Record>, n: nat)
    requires |s| >= n
    ensures ([r] + s)[..|s| + 1 - n] == [r] + s[..|s| - n]
  {}

  // ---- The ledger file ----------------------------------------------------------------------

  class Ledger {
    var records: seq<Record>
    var files: set<string>

    constructor (records: seq<Record>, files: set<string>)
      ensures Here() == State(records, files)
    {
      this.records, this.files := records, files;
    }

    function Here(): State
      reads this
    {
      State(records, files)
    }

    /** Deletes what the ledger dropped; a failure is skipped. */
    method DeleteFiles(removed: seq<Record>, undeletable: set<string>)
      modifies this`files
      ensures files == old(files) - (PathsOf(removed) - undeletable)
    {
      for i := 0 to |removed|
        invariant files == old(files) - (PathsOf(removed[..i]) - undeletable)
      {
        assert removed[..i + 1] == removed[..i] + [removed[i]];
        assert PathsOf(removed[..i + 1]) == PathsOf(removed[..i]) + {removed[i].path};
        if removed[i].path !in undeletable {
          files := files - {removed[i].path};
        }
      }
      assert removed[..|removed|] == removed;
    }

    method RecordSchemaBackup(b: Backup)
      requires b.path in files
      modifies this
      ensures Here() == After(State(old(records), old(files)), b)
      ensures b.writeFails ==> records == old(records) && files == old(files)
    {
      ghost var start := Here();
      assert start.files + {b.path} == start.files;
      if b.writeFails {
        return;
      }
      var all := records + [Record(b.path, b.database)];
      var retained, removed := SplitLedger(all, b.database, Retention(b.retention));
      records := retained;
      DeleteFiles(removed, b.undeletable);
    }
  }

  /** The slice and the two filters: what stays on the ledger, and what does not. */
  method SplitLedger(all: seq<Record>, database: string, n: nat) returns (retained: seq<Record>, removed: seq<Record>)
    requires n > 0
    ensures retained == Retained(all, database, n) && removed == Removed(all, database, n)
  {
    var matching: seq<nat> := [];
    for i := 0 to |all|
      invariant MatchesUpTo(all, database, matching, i)
    {
      if all[i].database == database {
        matching := matching + [i];
      }
    }
    var kept := KeptIndices(matching, n);
    retained, removed := [], [];
    for i := 0 to |all|
      invariant retained + Retained(all[i..], database, n) == Retained(all, database, n)
      invariant removed + Removed(all[i..], database, n) == Removed(all, database, n)
    {
      KeptMeansStays(all, database, matching, n, i);
      assert all[i..][1..] == all[i + 1..];
      if all[i].database != database || i in kept {
        retained := retained + [all[i]];
      } else {
        removed := removed + [all[i]];
      }
    }
    assert all[|all|..] == [];
  }

  /** The indices of the database's records below i, ascending. */
  predicate MatchesUpTo(all: seq<Record>, database: string, matching: seq<nat>, i: nat) {
    && i <= |all|
    && (forall k :: 0 <= k < |matching| ==> matching[k] < i && all[matching[k]].database == database)
    && (forall k, l :: 0 <= k < l < |matching| ==> matching[k] < matching[l])
    && (forall j :: 0 <= j < i && all[j].database == database ==> j in matching)
  }

  lemma IndexOrder(matching: seq<nat>, a: nat, b: nat)
    requires forall k, l :: 0 <= k < l < |matching| ==> matching[k] < matching[l]
    requires a < |matching| && b < |matching|
    ensures a < b <==> matching[a] < matching[b]
  {}

  /** The next index at or after a matching position is that position. */
  lemma NextMatch(all: seq<Record>, database: string, matching: seq<nat>, i: nat, p: nat)
    requires MatchesUpTo(all, database, matching, |all|) && i < |all| && all[i].database == database && p <= |matching|
    requires (p < |matching| ==> matching[p] >= i) && (p > 0 ==> matching[p - 1] < i)
    ensures p < |matching| && matching[p] == i
  {
    var q :| 0 <= q < |matching| && matching[q] == i;
    if p < |matching| {
      IndexOrder(matching, p, q);
    }
    if p > 0 {
      IndexOrder(matching, p - 1, q);
    }
  }

  /** From position i on there are as many of the database's records as indices not below i. */
  lemma {:induction false} TailCount(all: seq<Record>, database: string, matching: seq<nat>, i: nat, p: nat)
    requires MatchesUpTo(all, database, matching, |all|) && i <= |all| && p <= |matching|
    requires (p < |matching| ==> matching[p] >= i) && (p > 0 ==> matching[p - 1] < i)
    ensures |Select(all[i..], database, true)| == |matching| - p
    decreases |all| - i
  {
    if i < |all| {
      assert all[i..][1..] == all[i + 1..];
      if all[i].database == database {
        NextMatch(all, database, matching, i, p);
        TailCount(all, database, matching, i + 1, p + 1);
      } else {
        TailCount(all, database, matching, i + 1, p);
      }
    }
  }

  function KeptIndices(matching: seq<nat>, n: nat): set<nat> {
    set k | 0 <= k < |matching| && |matching| - n <= k :: matching[k]
  }

  /** Being among the last n indices is staying on the ledger. */
  lemma KeptMeansStays(all: seq<Record>, database: string, matching: seq<nat>, n: nat, i: nat)
    requires MatchesUpTo(all, database, matching, |all|) && i < |all|
    ensures Stays(all[i..], database, n) <==> all[i].database != database || i in KeptIndices(matching, n)
  {
    assert all[i..][1..] == all[i + 1..];
    if all[i].database == database {
      var k :| 0 <= k < |matching| && matching[k] == i;
      TailCount(all, database, matching, i + 1, k + 1);
      forall l | 0 <= l < |matching| && matching[l] == i ensures l == k {}
    }
  }
}
