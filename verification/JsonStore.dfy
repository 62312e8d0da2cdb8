/** The crash-safe JSON files (app/reliability.py): a write is a fixed sequence of file steps that
    can stop between any two of them, and a read falls back to the backup. */
module JsonStore {
  import opened Wrappers

  datatype Name = Target | Backup | Temp(id: nat)

  /** A file holds a JSON object (its text stands for it), other valid JSON, or bytes that do not parse. */
  datatype Content = Object(doc: string) | Other | Torn

  type Dir = map<Name, Content>

  predicate Parses(d: Dir, n: Name) {
    n in d && d[n] != Torn
  }

  predicate HoldsObject(d: Dir, n: Name) {
    n in d && d[n].Object?
  }

  /** `read_json_object`; None is the empty dict it returns when both files fail. The two files are
      opened one after the other, so the second may belong to a later directory state. */
  function ReadAcross(first: Dir, second: Dir): Option<string> {
    if HoldsObject(first, Target) then Some(first[Target].doc)
    else if HoldsObject(second, Backup) then Some(second[Backup].doc)
    else None
  }

  function Read(d: Dir): Option<string> {
    ReadAcross(d, d)
  }

  predicate BacksUp(d: Dir, keep: bool) {
    keep && Parses(d, Target)
  }

  function Steps(d: Dir, keep: bool): nat {
    if BacksUp(d, keep) then 6 else 3
  }

  /** The directory after the backup part: the old target has become the backup. */
  function BackedUp(d: Dir, keep: bool): Dir {
    if BacksUp(d, keep) then d[Backup := d[Target]] else d
  }

  /** The directory after the first k file steps of a write. A temporary is torn while it is being
      written; `os.replace` is one step. */
  function Stage(d: Dir, doc: string, keep: bool, temp: nat, k: nat): Dir
    requires k <= Steps(d, keep)
  {
    if BacksUp(d, keep) && k < 3 then
      if k == 0 then d else d[Temp(temp + 1) := if k == 1 then Torn else d[Target]]
    else
      var b := BackedUp(d, keep) - (if BacksUp(d, keep) then {Temp(temp + 1)} else {});
      var j := if BacksUp(d, keep) then k - 3 else k;
      if j == 0 then b
      else if j < 3 then b[Temp(temp) := if j == 1 then Torn else Object(doc)]
      else b[Target := Object(doc)] - {Temp(temp)}
  }

  /** The `finally` block: the temporaries of this write go. */
  function Cleaned(d: Dir, temp: nat): Dir {
    d - {Temp(temp), Temp(temp + 1)}
  }

  /** Where a write leaves the directory: all steps done, stopped dead after `stop` of them, or
      stopped by an exception and cleaned up. */
  datatype Fate = Finishes | Dies(stop: nat) | Raises(stop: nat)

  function AfterWrite(d: Dir, doc: string, keep: bool, temp: nat, fate: Fate): Dir {
    match fate
    case Finishes => Cleaned(Stage(d, doc, keep, temp, Steps(d, keep)), temp)
    case Dies(stop) => if stop <= Steps(d, keep) then Stage(d, doc, keep, temp, stop)
                       else Cleaned(Stage(d, doc, keep, temp, Steps(d, keep)), temp)
    case Raises(stop) => Cleaned(Stage(d, doc, keep, temp, if stop <= Steps(d, keep) then stop else Steps(d, keep)), temp)
  }

  /** The one directory a write can hurt: a target that is valid JSON but no object, and a backup
      that is one. */
  predicate BackupAtRisk(d: Dir, keep: bool) {
    keep && Target in d && d[Target] == Other && HoldsObject(d, Backup)
  }

  /** A reader that opens the target after `i` steps of a write and the backup after `j` of them. */
  predicate ReadsOldOrNew(d: Dir, doc: string, keep: bool, temp: nat, i: nat, j: nat)
    requires i <= j <= Steps(d, keep)
  {
    ReadAcross(Stage(d, doc, keep, temp, i), Stage(d, doc, keep, temp, j)) in {Read(d), Some(doc)}
  }

  /** The directory at every moment of a write, file by file: the target changes with the last step alone;
      the backup only where one is kept and the target parses, with the third, to the old target; the
      two temporaries are torn while they are written, complete until they are renamed, then gone. */
  lemma StageExactly(d: Dir, doc: string, keep: bool, temp: nat, k: nat)
    requires k <= if keep && Target in d && d[Target] != Torn then 6 else 3
    ensures var backs := keep && Target in d && d[Target] != Torn;
            && Steps(d, keep) == (if backs then 6 else 3)
            && var e := Stage(d, doc, keep, temp, k);
               var j := if backs then k - 3 else k;
            && (forall n :: n !in {Target, Backup, Temp(temp), Temp(temp + 1)} ==> SameFile(d, e, n))
            && (if j == 3 then HasFile(e, Target, Object(doc)) else SameFile(d, e, Target))
            && (if backs && k >= 3 then HasFile(e, Backup, d[Target]) else SameFile(d, e, Backup))
            && (if j <= 0 then SameFile(d, e, Temp(temp))
                else if j == 3 then Temp(temp) !in e else HasFile(e, Temp(temp), if j == 1 then Torn else Object(doc)))
            && (if !backs || k == 0 then SameFile(d, e, Temp(temp + 1))
                else if k >= 3 then Temp(temp + 1) !in e else HasFile(e, Temp(temp + 1), if k == 1 then Torn else d[Target]))
  {}

  ghost predicate SameFile(d: Dir, e: Dir, n: Name) {
    (n in d <==> n in e) && (n in d && n in e ==> d[n] == e[n])
  }

  ghost predicate HasFile(e: Dir, n: Name, c: Content) {
    n in e && e[n] == c
  }

  /** What a write leaves when it ends by itself or by an exception: only the target and a backup that was
      asked for may be different, and no temporary of its own is there. */
  lemma EndedWriteLeaves(d: Dir, doc: string, keep: bool, temp: nat, fate: Fate)
    requires !fate.Dies? && Temp(temp) !in d && Temp(temp + 1) !in d
    ensures var e := AfterWrite(d, doc, keep, temp, fate);
            var backs := keep && Target in d && d[Target] != Torn;
            var all := if backs then 6 else 3;
            var done := fate.Finishes? || fate.stop >= all;
            && (forall n :: n != Target && n != Backup ==> SameFile(d, e, n))
            && (if done then HasFile(e, Target, Object(doc)) else SameFile(d, e, Target))
            && (if backs && (done || fate.stop >= 3) then HasFile(e, Backup, d[Target]) else SameFile(d, e, Backup))
  {
    var all := Steps(d, keep);
    StageExactly(d, doc, keep, temp, if fate.Finishes? || fate.stop > all then all else fate.stop);
  }

  /** Reading during a write gives the value readable before it or the new one, for every pair of
      moments, exactly when the backup is not at risk. */
  lemma ReadDuringWrite(d: Dir, doc: string, keep: bool, temp: nat)
    ensures (forall i, j :: 0 <= i <= j <= Steps(d, keep) ==> ReadsOldOrNew(d, doc, keep, temp, i, j))
            <==> !BackupAtRisk(d, keep)
  {
    if BackupAtRisk(d, keep) {
      assert !ReadsOldOrNew(d, doc, keep, temp, 3, 3);
    }
  }

  /** A write that runs to its end is read back, and leaves no temporary of its own. */
  lemma FinishedWriteIsRead(d: Dir, doc: string, keep: bool, temp: nat)
    ensures var e := AfterWrite(d, doc, keep, temp, Finishes);
            && Read(e) == Some(doc)
            && e.Keys <= d.Keys + {Target, Backup} && Temp(temp) !in e && Temp(temp + 1) !in e
            && (HoldsObject(d, Target) && keep ==> e[Target] == Object(doc) && Backup in e && e[Backup] == d[Target])
  {}

  /** However a write ends, the readable value is the old one or the new one, temporaries of other
      writes stay as they are, and a good backup stays good, unless the backup is at risk. */
  lemma WriteIsAtomic(d: Dir, doc: string, keep: bool, temp: nat, fate: Fate)
    requires !BackupAtRisk(d, keep)
    ensures var e := AfterWrite(d, doc, keep, temp, fate);
            && Read(e) in {Read(d), Some(doc)}
            && (HoldsObject(d, Backup) ==> HoldsObject(e, Backup))
            && (forall n: nat :: n != temp && n != temp + 1 ==>
                  (Temp(n) in e <==> Temp(n) in d) && (Temp(n) in d ==> e[Temp(n)] == d[Temp(n)]))
  {}

  // ---- Damage during a write ----------------------------------------------------------------

  function Damaged(d: Dir): Dir {
    if Target in d then d[Target := Torn] else d
  }

  /** Damage leaves the backup to be read, and every other file alone. */
  lemma DamageFallsBack(d: Dir)
    ensures var e := Damaged(d);
            && e.Keys == d.Keys && (forall n :: n != Target ==> SameFile(d, e, n)) && !HoldsObject(e, Target)
            && Read(e) == if Backup in d && d[Backup].Object? then Some(d[Backup].doc) else None
  {}

  /** The directory after k steps of a write, the target torn after `tear` of them if that is not later.
      Only the last step, which replaces the target, mends it. */
  function TornStage(d: Dir, doc: string, keep: bool, temp: nat, tear: nat, k: nat): Dir
    requires k <= Steps(d, keep)
  {
    var stage := Stage(d, doc, keep, temp, k);
    if tear > k || (k == Steps(d, keep) && tear < k) then stage else Damaged(stage)
  }

  predicate ReadsGood(d: Dir, doc: string, keep: bool, temp: nat, tear: nat, i: nat, j: nat)
    requires i <= j <= Steps(d, keep)
  {
    var r := ReadAcross(TornStage(d, doc, keep, temp, tear, i), TornStage(d, doc, keep, temp, tear, j));
    r in {Read(d), Read(Damaged(d)), Some(doc)}
  }

  /** With the target torn at any moment of a write, a read gives the value readable before, the one
      readable without the target, or the new one, exactly when the backup is not at risk. */
  lemma TornReadDuringWrite(d: Dir, doc: string, keep: bool, temp: nat)
    ensures (forall tear: nat, i: nat, j: nat :: i <= j <= Steps(d, keep) ==> ReadsGood(d, doc, keep, temp, tear, i, j))
            <==> !BackupAtRisk(d, keep)
  {
    if BackupAtRisk(d, keep) {
      assert !ReadsGood(d, doc, keep, temp, 6, 3, 3);
    } else {
      forall tear: nat, i: nat, j: nat | i <= j <= Steps(d, keep) ensures ReadsGood(d, doc, keep, temp, tear, i, j) {
        TornReadIsGood(d, doc, keep, temp, tear, i, j);
      }
    }
  }

  /** The target and the backup at one moment of such a write. */
  lemma TornStageFiles(d: Dir, doc: string, keep: bool, temp: nat, tear: nat, k: nat)
    requires k <= Steps(d, keep)
    ensures var e := TornStage(d, doc, keep, temp, tear, k);
            && (HoldsObject(e, Target) ==> e[Target] == Object(doc) || (HoldsObject(d, Target) && e[Target] == d[Target]))
            && (Backup in e && (Backup !in d || e[Backup] != d[Backup]) ==> BacksUp(d, keep) && e[Backup] == d[Target])
            && (Backup in d ==> Backup in e)
            && (k == 0 && tear > 0 ==> e == d)
            && (HoldsObject(d, Target) && !HoldsObject(e, Target) ==> tear <= k)
            && (forall n :: n != Target ==> SameFile(Stage(d, doc, keep, temp, k), e, n))
            && (HoldsObject(e, Target) <==>
                  (tear > k && HoldsObject(d, Target) && k < Steps(d, keep)) || (k == Steps(d, keep) && tear != k))
  {}

  lemma TornReadIsGood(d: Dir, doc: string, keep: bool, temp: nat, tear: nat, i: nat, j: nat)
    requires !BackupAtRisk(d, keep) && i <= j <= Steps(d, keep)
    ensures ReadsGood(d, doc, keep, temp, tear, i, j)
  {
    TornStageFiles(d, doc, keep, temp, tear, i);
    TornStageFiles(d, doc, keep, temp, tear, j);
  }

  /** How far a write gets. */
  function Reached(d: Dir, keep: bool, fate: Fate): nat {
    match fate
    case Finishes => Steps(d, keep)
    case Dies(stop) => if stop <= Steps(d, keep) then stop else Steps(d, keep)
    case Raises(stop) => if stop <= Steps(d, keep) then stop else Steps(d, keep)
  }

  function AfterTornWrite(d: Dir, doc: string, keep: bool, temp: nat, fate: Fate, tear: nat): Dir {
    var e := TornStage(d, doc, keep, temp, tear, Reached(d, keep, fate));
    if fate.Dies? && fate.stop <= Steps(d, keep) then e else Cleaned(e, temp)
  }

  /** A write with the target torn in it leaves what it leaves undisturbed, except that the target is torn
      unless the damage came too late or the last step mended it. */
  lemma TornWriteExactly(d: Dir, doc: string, keep: bool, temp: nat, fate: Fate, tear: nat)
    ensures var e, u := AfterTornWrite(d, doc, keep, temp, fate, tear), AfterWrite(d, doc, keep, temp, fate);
            var all := if keep && Target in d && d[Target] != Torn then 6 else 3;
            var reached := if fate.Finishes? || fate.stop >= all then all else fate.stop;
            && e.Keys == u.Keys && (forall n :: n != Target ==> SameFile(u, e, n))
            && if tear <= reached && (reached < all || tear == all) then !HoldsObject(e, Target) else SameFile(u, e, Target)
  {}

  /** A write stopped dead leaves the directory of that moment, or of its end. */
  lemma DeadWriteLeaves(d: Dir, doc: string, keep: bool, temp: nat, stop: nat)
    ensures var all := if keep && Target in d && d[Target] != Torn then 6 else 3;
            AfterWrite(d, doc, keep, temp, Dies(stop))
            == if stop <= all then Stage(d, doc, keep, temp, stop) else AfterWrite(d, doc, keep, temp, Finishes)
  {}

  lemma TornWriteIsSafe(d: Dir, doc: string, keep: bool, temp: nat, fate: Fate, tear: nat)
    requires !BackupAtRisk(d, keep)
    ensures var e := AfterTornWrite(d, doc, keep, temp, fate, tear);
            && Read(e) in {Read(d), Read(Damaged(d)), Some(doc)}
            && (HoldsObject(d, Backup) ==> HoldsObject(e, Backup))
  {
    var k := Reached(d, keep, fate);
    TornReadDuringWrite(d, doc, keep, temp);
    assert ReadsGood(d, doc, keep, temp, tear, k, k);
  }

  // ---- Runs ---------------------------------------------------------------------------------

  /** A write with any fate, undisturbed or with the target torn after some steps, or the target
      damaged or gone between writes. */
  datatype Event = Write(doc: string, keep: bool, temp: nat, fate: Fate, tear: Option<nat>) | Damage | Loss

  function After(d: Dir, e: Event): Dir {
    match e
    case Write(doc, keep, temp, fate, None) => AfterWrite(d, doc, keep, temp, fate)
    case Write(doc, keep, temp, fate, Some(tear)) => AfterTornWrite(d, doc, keep, temp, fate, tear)
    case Damage => Damaged(d)
    case Loss => d - {Target}
  }

  function Run(d: Dir, events: seq<Event>): Dir {
    if events == [] then d else After(Run(d, events[..|events| - 1]), events[|events| - 1])
  }

  /** Only objects are written, and damage leaves bytes that do not parse. */
  predicate Plain(d: Dir) {
    Target in d ==> d[Target] != Other
  }

  lemma EventKeeps(d: Dir, e: Event)
    requires Plain(d)
    ensures Plain(After(d, e))
    ensures HoldsObject(d, Backup) ==> HoldsObject(After(d, e), Backup)
  {
    match e {
      case Write(doc, keep, temp, fate, None) => WriteIsAtomic(d, doc, keep, temp, fate);
      case Write(doc, keep, temp, fate, Some(tear)) => TornWriteIsSafe(d, doc, keep, temp, fate, tear);
      case _ =>
    }
  }

  /** Whatever came before it, a write that finishes is what is read next. */
  lemma {:induction false} LastWriteIsRead(d: Dir, events: seq<Event>, doc: string, keep: bool, temp: nat)
    ensures Read(Run(d, events + [Write(doc, keep, temp, Finishes, None)])) == Some(doc)
  {
    assert (events + [Write(doc, keep, temp, Finishes, None)])[..|events|] == events;
    FinishedWriteIsRead(Run(d, events), doc, keep, temp);
  }

  /** Once the backup holds an object it holds one for ever, so no run of writes, each stopped
      anywhere, with any damage to the target between them or during them, makes a read come back empty. */
  lemma {:induction false} RunNeverReadsEmpty(d: Dir, events: seq<Event>)
    requires Plain(d)
    ensures Plain(Run(d, events))
    ensures HoldsObject(d, Backup) ==> HoldsObject(Run(d, events), Backup) && Read(Run(d, events)).Some?
  {
    if events != [] {
      var front := events[..|events| - 1];
      RunNeverReadsEmpty(d, front);
      EventKeeps(Run(d, front), events[|events| - 1]);
    }
  }

  /** The texts a read may return after a run: what the directory held, or what the run wrote. */
  function Known(d: Dir, events: seq<Event>): set<string> {
    if events == [] then
      (if HoldsObject(d, Target) then {d[Target].doc} else {}) + (if HoldsObject(d, Backup) then {d[Backup].doc} else {})
    else
      var e := events[|events| - 1];
      Known(d, events[..|events| - 1]) + (if e.Write? then {e.doc} else {})
  }

  /** Contents move only from the new value to the target and from the target to the backup. */
  predicate ContentsFrom(d: Dir, r: Dir, docs: set<string>) {
    && (HoldsObject(r, Target) ==> (HoldsObject(d, Target) && r[Target] == d[Target]) || r[Target].doc in docs)
    && (HoldsObject(r, Backup) ==>
          (HoldsObject(d, Backup) && r[Backup] == d[Backup]) || (HoldsObject(d, Target) && r[Backup] == d[Target]))
  }

  lemma StageContents(d: Dir, doc: string, keep: bool, temp: nat, k: nat)
    requires k <= Steps(d, keep)
    ensures ContentsFrom(d, Stage(d, doc, keep, temp, k), {doc})
  {}

  lemma CleanedContents(d: Dir, r: Dir, docs: set<string>, temp: nat)
    requires ContentsFrom(d, r, docs)
    ensures ContentsFrom(d, Damaged(r), docs) && ContentsFrom(d, Cleaned(r, temp), docs)
    ensures ContentsFrom(d, Cleaned(Damaged(r), temp), docs)
  {}

  lemma EventContents(d: Dir, e: Event)
    ensures ContentsFrom(d, After(d, e), if e.Write? then {e.doc} else {})
  {
    match e {
      case Write(doc, keep, temp, fate, tear) =>
        var k := Reached(d, keep, fate);
        StageContents(d, doc, keep, temp, k);
        CleanedContents(d, Stage(d, doc, keep, temp, k), {doc}, temp);
        if tear.None? {
          assert After(d, e) == Stage(d, doc, keep, temp, k) || After(d, e) == Cleaned(Stage(d, doc, keep, temp, k), temp);
        } else {
          assert After(d, e) == AfterTornWrite(d, doc, keep, temp, fate, tear.value);
        }
      case _ =>
    }
  }

  /** No read ever returns a mixture or an invention. */
  lemma {:induction false} RunReadsOnlyKnown(d: Dir, events: seq<Event>)
    ensures var e := Run(d, events);
            && (HoldsObject(e, Target) ==> e[Target].doc in Known(d, events))
            && (HoldsObject(e, Backup) ==> e[Backup].doc in Known(d, events))
            && (Read(e).Some? ==> Read(e).value in Known(d, events))
  {
    if events != [] {
      var front := events[..|events| - 1];
      RunReadsOnlyKnown(d, front);
      EventContents(Run(d, front), events[|events| - 1]);
    }
  }

  // ---- The store object ---------------------------------------------------------------------

  class Store {
    var dir: Dir
    var nextTemp: nat

    constructor (dir: Dir)
      ensures this.dir == dir && nextTemp == 0
    {
      this.dir, nextTemp := dir, 0;
    }

    /** Writes one temporary and renames it, unless the write stops within `steps` more file steps. */
    method WriteAndReplace(temp: Name, content: Content, goal: Name, steps: nat) returns (done: bool)
      requires temp.Temp? && !goal.Temp?
      modifies this`dir
      ensures done <==> steps >= 3
      ensures dir == if steps == 0 then old(dir)
                     else if steps == 1 then old(dir)[temp := Torn]
                     else if steps == 2 then old(dir)[temp := content]
                     else old(dir)[goal := content] - {temp}
    {
      if steps == 0 {
        return false;
      }
      dir := dir[temp := Torn];
      if steps == 1 {
        return false;
      }
      dir := dir[temp := content];
      if steps == 2 {
        return false;
      }
      dir := dir[goal := dir[temp]] - {temp};
      return true;
    }

    /** The steps of a write up to `stop` of them. */
    method WriteSteps(doc: string, keep: bool, temp: nat, stop: nat)
      requires stop <= Steps(dir, keep)
      requires Temp(temp) !in dir && Temp(temp + 1) !in dir
      modifies this`dir
      ensures dir == Stage(old(dir), doc, keep, temp, stop)
    {
      var left := stop;
      if keep && Target in dir {
        var current := dir[Target];
        if current != Torn {
          var replaced := WriteAndReplace(Temp(temp + 1), current, Backup, left);
          if !replaced {
            return;
          }
          left := left - 3;
        }
      }
      var _ := WriteAndReplace(Temp(temp), Object(doc), Target, left);
    }

    method AtomicWrite(doc: string, keep: bool, fate: Fate)
      requires forall n :: n in dir && n.Temp? ==> n.id < nextTemp
      modifies this
      ensures dir == AfterWrite(old(dir), doc, keep, old(nextTemp), fate)
      ensures forall n :: n in dir && n.Temp? ==> n.id < nextTemp
      ensures !fate.Dies? ==> forall n :: n != Target && n != Backup ==> SameFile(old(dir), dir, n)
      ensures !keep && !fate.Dies? ==> SameFile(old(dir), dir, Backup)
      ensures fate.Finishes? ==> HasFile(dir, Target, Object(doc))
    {
      if !fate.Dies? {
        EndedWriteLeaves(dir, doc, keep, nextTemp, fate);
      }
      var temp := nextTemp;
      nextTemp := nextTemp + 2;
      var all := Steps(dir, keep);
      match fate
      case Dies(stop) =>
        WriteSteps(doc, keep, temp, if stop <= all then stop else all);
        if stop > all {
          dir := dir - {Temp(temp), Temp(temp + 1)};
        }
      case Raises(stop) =>
        WriteSteps(doc, keep, temp, if stop <= all then stop else all);
        dir := dir - {Temp(temp), Temp(temp + 1)};
      case Finishes =>
        WriteSteps(doc, keep, temp, all);
        dir := dir - {Temp(temp), Temp(temp + 1)};
    }

    method ReadJsonObject() returns (r: Option<string>)
      ensures r == Read(dir)
    {
      var names := [Target, Backup];
      var i := 0;
      while i < 2
        invariant 0 <= i <= 2
        invariant i >= 1 ==> !HoldsObject(dir, Target)
        invariant i >= 2 ==> !HoldsObject(dir, Backup)
      {
        if HoldsObject(dir, names[i]) {
          return Some(dir[names[i]].doc);
        }
        i := i + 1;
      }
      return None;
    }
  }
}
