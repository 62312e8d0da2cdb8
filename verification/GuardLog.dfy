/** The guard's rotating log (tools/legacy_playout_guard.py, `log`): the current file (index 0) and
    up to five numbered backups. Every file operation may raise, which ends the call silently. */
module GuardLog {

  const MAX_BYTES := 10 * 1024 * 1024
  const BACKUPS := 5

  /** A record is one encoded line; its length is its size. */
  type Record = seq<int>

  type Files = map<nat, seq<Record>>

  /** The file operation that raises, if any. */
  datatype Fault = NoFault | AtUnlink | AtMove(index: nat) | AtShift | AtAppend

  function Size(f: seq<Record>): nat {
    if f == [] then 0 else Size(f[..|f| - 1]) + |f[|f| - 1]|
  }

  function Content(files: Files, i: nat): seq<Record> {
    if i in files then files[i] else []
  }

  /** Backups n..1 and then the current file: what an operator reads, oldest first. */
  function From(files: Files, n: nat): seq<Record> {
    if n == 0 then Content(files, 0) else Content(files, n) + From(files, n - 1)
  }

  function Text(files: Files): seq<Record> {
    From(files, BACKUPS)
  }

  predicate IsSuffix(s: seq<Record>, all: seq<Record>) {
    |s| <= |all| && s == all[|all| - |s|..]
  }

  /** A file takes records only while it is below the limit. */
  predicate Bounded(f: seq<Record>) {
    f != [] ==> Size(f[..|f| - 1]) < MAX_BYTES
  }

  /** What holds whatever fails: known names, bounded files, and only full files in the backups. */
  predicate Sound(files: Files) {
    && (forall i :: i in files ==> i <= BACKUPS && Bounded(files[i]))
    && (forall i :: i in files && i > 0 ==> Size(files[i]) >= MAX_BYTES)
  }

  predicate NoGaps(files: Files) {
    forall i :: 1 <= i < BACKUPS && i + 1 in files ==> i in files
  }

  /** Files n+1..5 hold what n..4 held before: the state of the rotation loop. */
  predicate MovedDownTo(was: Files, now: Files, n: nat) {
    && n <= BACKUPS - 1
    && (forall i :: n + 2 <= i <= BACKUPS ==> Content(now, i) == Content(was, i - 1) && (i in now <==> i - 1 in was))
    && n + 1 !in now
    && (forall i :: 0 <= i <= n ==> Content(now, i) == Content(was, i) && (i in now <==> i in was))
    && (forall i :: i in now ==> i <= BACKUPS)
  }

  lemma {:induction false} SameFrom(a: Files, b: Files, n: nat)
    requires forall i :: 0 <= i <= n ==> Content(a, i) == Content(b, i)
    ensures From(a, n) == From(b, n)
  {
    if n > 0 {
      SameFrom(a, b, n - 1);
    }
  }

  /** Moving files up by one number keeps the text above the gap. */
  lemma {:induction false} ShiftedFrom(was: Files, now: Files, n: nat, top: nat)
    requires n < top && (forall i :: n + 2 <= i <= top ==> Content(now, i) == Content(was, i - 1))
    requires Content(now, n + 1) == [] && (forall i :: 0 <= i <= n ==> Content(now, i) == Content(was, i))
    ensures From(now, top) == From(was, top - 1)
    decreases top
  {
    if top == n + 1 {
      SameFrom(was, now, n);
      assert From(now, top) == From(now, n);
    } else {
      ShiftedFrom(was, now, n, top - 1);
    }
  }

  /** The rotation loop loses the oldest file and nothing else, wherever it stops. */
  lemma MovedText(was: Files, now: Files, n: nat)
    requires MovedDownTo(was, now, n)
    ensures Text(now) == From(was, BACKUPS - 1)
  {
    ShiftedFrom(was, now, n, BACKUPS);
  }

  lemma MovedSound(was: Files, now: Files, n: nat)
    requires MovedDownTo(was, now, n) && Sound(was)
    ensures Sound(now)
  {}

  /** Removing the oldest backup leaves the text below it. */
  lemma UnlinkText(files: Files)
    requires Sound(files)
    ensures Sound(files - {5}) && Text(files - {5}) == From(files, BACKUPS - 1)
    ensures Text(files) == Content(files, 5) + From(files, BACKUPS - 1)
  {
    SameFrom(files, files - {5}, BACKUPS - 1);
  }

  /** Renaming the full current file to backup 1 changes no text. */
  lemma ShiftText(files: Files)
    requires Sound(files) && 1 !in files && 0 in files && Size(files[0]) >= MAX_BYTES
    ensures var now := files[1 := files[0]] - {0}; Sound(now) && Text(now) == Text(files)
  {
    var now := files[1 := files[0]] - {0};
    assert From(now, 1) == From(files, 1) by {
      assert From(now, 0) == [] && From(files, 0) == files[0];
    }
    UpperSame(files, now, BACKUPS);
  }

  lemma {:induction false} UpperSame(a: Files, b: Files, n: nat)
    requires n >= 1 && From(a, 1) == From(b, 1) && forall i :: 2 <= i <= n ==> Content(a, i) == Content(b, i)
    ensures From(a, n) == From(b, n)
  {
    if n > 1 {
      UpperSame(a, b, n - 1);
    }
  }

  lemma {:induction false} AppendFrom(files: Files, r: Record, n: nat)
    ensures From(files[0 := Content(files, 0) + [r]], n) == From(files, n) + [r]
  {
    if n > 0 {
      AppendFrom(files, r, n - 1);
    }
  }

  lemma AppendText(files: Files, r: Record)
    requires Sound(files) && Size(Content(files, 0)) < MAX_BYTES
    ensures var now := files[0 := Content(files, 0) + [r]]; Sound(now) && Text(now) == Text(files) + [r]
  {
    AppendFrom(files, r, BACKUPS);
    var f := Content(files, 0) + [r];
    assert f[..|f| - 1] == Content(files, 0);
  }

  lemma SuffixDrop(head: seq<Record>, tail: seq<Record>, all: seq<Record>)
    requires IsSuffix(head + tail, all)
    ensures IsSuffix(tail, all)
  {}

  /** What Write knows once the oldest backup is gone: `now` still reads as a suffix. */
  lemma RotationText(was: Files, now: Files, n: nat, written: seq<Record>)
    requires Sound(was) && IsSuffix(Text(was), written) && MovedDownTo(was - {5}, now, n)
    ensures Sound(now) && IsSuffix(Text(now), written) && Text(now) == From(was, BACKUPS - 1)
  {
    UnlinkText(was);
    SuffixDrop(Content(was, 5), From(was, BACKUPS - 1), written);
    MovedText(was - {5}, now, n);
    MovedSound(was - {5}, now, n);
    SameFrom(was, was - {5}, BACKUPS - 1);
  }

  predicate AllBackups(files: Files) {
    forall i :: 1 <= i <= BACKUPS ==> i in files
  }

  /** After a completed rotation every backup number above 1 stands for the one below it. */
  lemma RotatedNumbers(was: Files, moved: Files)
    requires 0 in was && MovedDownTo(was - {5}, moved, 0)
    ensures var now := moved[1 := was[0]] - {0};
            1 in now && 0 !in now && forall i: nat :: 2 <= i <= BACKUPS ==> (i in now <==> i - 1 in was)
  {
    forall i: nat | 2 <= i <= BACKUPS ensures i in moved <==> i - 1 in was {
      assert i in moved <==> i - 1 in was - {5};
    }
  }

  /** A completed rotation leaves no gap, and drops text only from behind five newer backups. */
  lemma RotationKeeps(was: Files, moved: Files)
    requires Sound(was) && NoGaps(was) && 0 in was && MovedDownTo(was - {5}, moved, 0)
    ensures var now := moved[1 := was[0]] - {0}; NoGaps(now) && (5 in was ==> AllBackups(now))
    ensures 5 !in was ==> Text(was) == From(was, BACKUPS - 1)
  {
    RotatedNumbers(was, moved);
    UnlinkText(was);
    ShiftedNoGaps(was, moved[1 := was[0]] - {0});
  }

  lemma ShiftedNoGaps(was: Files, now: Files)
    requires NoGaps(was) && 1 in now && forall i: nat :: 2 <= i <= BACKUPS ==> (i in now <==> i - 1 in was)
    ensures NoGaps(now) && (5 in was ==> AllBackups(now))
  {
    forall i: nat | 1 <= i < BACKUPS && i + 1 in now ensures i in now {
      assert i in was;
      assert i > 1 ==> (i - 1) + 1 in was;
    }
    if 5 in was {
      BackupsDownFrom(was, 5);
      forall i: nat | 1 <= i <= BACKUPS ensures i in now {
        assert i > 1 ==> i - 1 in was;
      }
    }
  }

  lemma {:induction false} BackupsDownFrom(files: Files, n: nat)
    requires NoGaps(files) && 1 <= n <= BACKUPS && n in files
    ensures forall i: nat :: 1 <= i <= n ==> i in files
  {
    if n > 1 {
      assert (n - 1) + 1 in files;
      BackupsDownFrom(files, n - 1);
    }
  }

  /** The invariant survives an append. */
  lemma AppendKeeps(files: Files, written: seq<Record>, r: Record)
    requires Sound(files) && Size(Content(files, 0)) < MAX_BYTES && IsSuffix(Text(files), written)
    ensures var now := files[0 := Content(files, 0) + [r]];
            && Sound(now) && Text(now) == Text(files) + [r] && IsSuffix(Text(now), written + [r])
            && (NoGaps(files) ==> NoGaps(now)) && (AllBackups(files) ==> AllBackups(now))
            && (Text(files) == written ==> Text(now) == written + [r])
  {
    AppendText(files, r);
    var now := files[0 := Content(files, 0) + [r]];
    assert Text(now) == (written + [r])[|written| + 1 - |Text(now)|..];
  }

  lemma {:induction false} SizeConcat(a: seq<Record>, b: seq<Record>)
    ensures Size(a + b) == Size(a) + Size(b)
    ensures Size([]) == 0 && forall r: Record :: Size([r]) == |r|
  {
    if b == [] {
      assert a + b == a;
    } else {
      SizeConcat(a, b[..|b| - 1]);
      assert (a + b)[..|a + b| - 1] == a + b[..|b| - 1];
    }
  }

  /** n full backups keep at least n times the limit readable. */
  lemma {:induction false} RetainedSize(files: Files, n: nat)
    requires Sound(files) && n <= BACKUPS && forall i :: 1 <= i <= n ==> i in files
    ensures Size(From(files, n)) >= n * MAX_BYTES
  {
    if n > 0 {
      RetainedSize(files, n - 1);
      assert n in files && Content(files, n) == files[n];
      assert n * MAX_BYTES == (n - 1) * MAX_BYTES + MAX_BYTES;
      SizeConcat(Content(files, n), From(files, n - 1));
    }
  }

  /** No file outgrows the limit by as much as its last record. */
  lemma FileBound(files: Files, i: nat)
    requires Sound(files) && i in files && files[i] != []
    ensures Size(files[i]) < MAX_BYTES + |files[i][|files[i]| - 1]|
  {}

  lemma FileFits(files: Files, i: nat, longest: nat)
    requires Sound(files) && NoLonger(files, longest)
    ensures Size(Content(files, i)) <= MAX_BYTES + longest
  {
    if i in files && files[i] != [] {
      FileBound(files, i);
      assert |files[i][|files[i]| - 1]| <= longest;
    }
  }

  predicate NoLonger(files: Files, longest: nat) {
    forall i, k :: i in files && 0 <= k < |files[i]| ==> |files[i][k]| <= longest
  }

  /** If no record is longer than `longest`, n backups and the current file together stay within n + 1
      times the limit and one record. */
  lemma {:induction false} TotalBound(files: Files, n: nat, longest: nat)
    requires Sound(files) && NoLonger(files, longest)
    ensures Size(From(files, n)) <= n * (MAX_BYTES + longest) + (MAX_BYTES + longest)
  {
    FileFits(files, n, longest);
    if n > 0 {
      TotalBound(files, n - 1, longest);
      SizeConcat(Content(files, n), From(files, n - 1));
      assert n * (MAX_BYTES + longest) == (n - 1) * (MAX_BYTES + longest) + (MAX_BYTES + longest);
    }
  }

  /** The log is a suffix of all that was written. Without I/O errors the backups have no gaps, and a
      record is gone only while all five backups, each full, hold newer ones. */
  predicate Keeps(files: Files, written: seq<Record>, faultless: bool) {
    && Sound(files) && IsSuffix(Text(files), written)
    && (faultless ==> NoGaps(files) && (Text(files) != written ==> AllBackups(files)))
  }

  /** The current file has reached 10 MiB. */
  ghost predicate Full(files: Files) {
    0 in files && Size(files[0]) >= 10485760
  }

  /** The fault ends the call: an operation it really comes to raises. */
  ghost predicate Hits(files: Files, fault: Fault) {
    fault == AtAppend
    || (Full(files) && (fault == AtUnlink || fault == AtShift || (fault.AtMove? && 1 <= fault.index <= 4 && fault.index in files)))
  }

  /** Backup 5 is gone, and backups n+1..4 are one number up. */
  ghost predicate Renumbered(was: Files, now: Files, n: nat) {
    && (forall i: nat :: i <= n ==> (i in now <==> i in was) && Content(now, i) == Content(was, i))
    && n + 1 !in now
    && (forall i: nat :: n + 2 <= i <= 5 ==> (i in now <==> i - 1 in was) && Content(now, i) == Content(was, i - 1))
    && (forall i: nat :: i > 5 ==> i !in now)
  }

  /** The files after a call: untouched, cut off in the middle of a rotation, or with the record at the
      end of the current file, which a rotation has renamed to backup 1 before. */
  ghost predicate Wrote(was: Files, now: Files, r: Record, fault: Fault) {
    if !Full(was) then now == if fault == AtAppend then was else was[0 := Content(was, 0) + [r]]
    else if fault == AtUnlink then now == was
    else if fault.AtMove? && 1 <= fault.index <= 4 && fault.index in was then Renumbered(was, now, fault.index)
    else if fault == AtShift then Renumbered(was, now, 0)
    else Shifted(was, now - {0}) && (if fault == AtAppend then 0 !in now else 0 in now && now[0] == [r])
  }

  /** Every file is one number up, the fifth backup dropped. */
  ghost predicate Shifted(was: Files, now: Files) {
    && (forall i: nat :: 1 <= i <= 5 ==> (i in now <==> i - 1 in was) && Content(now, i) == Content(was, i - 1))
    && (forall i: nat :: i == 0 || i > 5 ==> i !in now)
  }

  lemma Renumbers(was: Files, now: Files, n: nat)
    requires MovedDownTo(was - {5}, now, n) && forall i :: i in was ==> i <= BACKUPS
    ensures Renumbered(was, now, n)
  {
    assert forall i: nat :: i <= 4 ==> (i in was - {5} <==> i in was) && Content(was - {5}, i) == Content(was, i);
  }

  lemma Shifts(was: Files, moved: Files)
    requires Renumbered(was, moved, 0) && 0 in was
    ensures Shifted(was, moved[1 := moved[0]] - {0})
  {}

  class Log {
    var files: Files
    /** Every record a call has written. */
    ghost var written: seq<Record>
    ghost var faultless: bool

    ghost predicate Valid()
      reads this
    {
      Keeps(files, written, faultless)
    }

    constructor ()
      ensures Valid() && written == [] && faultless
    {
      files, written, faultless := map[], [], true;
    }

    /** Renumbers 4..1 to 5..2. */
    method MoveBackups(fault: Fault) returns (ok: bool, ghost n: nat)
      requires 5 !in files && forall i :: i in files ==> i <= BACKUPS
      modifies this`files
      ensures MovedDownTo(old(files), files, n)
      ensures ok ==> n == 0
      ensures !ok <==> fault.AtMove? && 1 <= fault.index <= 4 && fault.index in old(files)
      ensures !ok ==> n == fault.index
    {
      var index := BACKUPS - 1;
      while index > 0
        invariant 0 <= index <= BACKUPS - 1
        invariant MovedDownTo(old(files), files, index)
        invariant fault.AtMove? && index < fault.index <= 4 ==> fault.index !in old(files)
      {
        if index in files && fault == AtMove(index) {
          return false, index;
        }
        MoveOne(old(files), files, index);
        if index in files {
          files := files[index + 1 := files[index]] - {index};
        }
        index := index - 1;
      }
      return true, 0;
    }

    method Rotate(fault: Fault) returns (ok: bool)
      requires Valid() && 0 in files && Size(files[0]) >= MAX_BYTES && (faultless ==> fault == NoFault)
      modifies this`files
      ensures Valid()
      ensures ok ==> Shifted(old(files), files)
      ensures ok <==> fault == AtAppend || !Hits(old(files), fault)
      ensures !ok ==> if fault == AtUnlink then files == old(files)
                      else Renumbered(old(files), files, if fault.AtMove? then fault.index else 0)
    {
      if fault == AtUnlink {
        return false;
      }
      ghost var was := files;
      files := files - {5};
      ghost var n: nat;
      ok, n := MoveBackups(fault);
      RotationText(was, files, n, written);
      Renumbers(was, files, n);
      if !ok || fault == AtShift {
        return false;
      }
      RotationKeepsLog(was, files, written, faultless);
      Shifts(was, files);
      files := files[1 := files[0]] - {0};
      return true;
    }

    method Write(r: Record, fault: Fault) returns (done: bool)
      requires Valid()
      modifies this
      ensures Valid()
      ensures written == if done then old(written) + [r] else old(written)
      ensures faultless == (old(faultless) && fault == NoFault)
      ensures done <==> !Hits(old(files), fault)
      ensures Wrote(old(files), files, r, fault)
      ensures done ==> Text(files) != [] && Text(files)[|Text(files)| - 1] == r
    {
      ghost var was := files;
      faultless := faultless && fault == NoFault;
      if 0 in files && Size(files[0]) >= MAX_BYTES {
        var rotated := Rotate(fault);
        if !rotated {
          StoppedWrote(was, files, r, fault);
          return false;
        }
      }
      ReadyWrote(was, files, r, fault);
      if fault == AtAppend {
        return false;
      }
      Append(r);
      return true;
    }

    method Append(r: Record)
      requires Valid() && Size(Content(files, 0)) < MAX_BYTES
      modifies this`files, this`written
      ensures Valid() && written == old(written) + [r] && Text(files) == old(Text(files)) + [r]
      ensures files == old(files)[0 := Content(old(files), 0) + [r]]
    {
      AppendKeeps(files, written, r);
      files := files[0 := Content(files, 0) + [r]];
      written := written + [r];
    }
  }

  /** A call that a rotation ended. */
  lemma StoppedWrote(was: Files, now: Files, r: Record, fault: Fault)
    requires Full(was) && Hits(was, fault) && fault != AtAppend
    requires if fault == AtUnlink then now == was else Renumbered(was, now, if fault.AtMove? then fault.index else 0)
    ensures Wrote(was, now, r, fault)
  {}

  /** A call that comes to its append. */
  lemma ReadyWrote(was: Files, ready: Files, r: Record, fault: Fault)
    requires if Full(was) then Shifted(was, ready) && (fault == AtAppend || !Hits(was, fault)) else ready == was
    ensures fault == AtAppend ==> Wrote(was, ready, r, fault)
    ensures fault != AtAppend ==> !Hits(was, fault) && Wrote(was, ready[0 := Content(ready, 0) + [r]], r, fault)
    ensures Size(Content(ready, 0)) < MAX_BYTES
  {
    var now := ready[0 := Content(ready, 0) + [r]];
    if Full(was) {
      assert 0 !in ready && ready - {0} == ready && now - {0} == ready;
    }
  }

  /** The last step of a rotation that met no fault before it. */
  lemma RotationKeepsLog(was: Files, moved: Files, written: seq<Record>, faultless: bool)
    requires Keeps(was, written, faultless) && 0 in was && Size(was[0]) >= MAX_BYTES && MovedDownTo(was - {5}, moved, 0)
    ensures 0 in moved && moved[0] == was[0] && Keeps(moved[1 := moved[0]] - {0}, written, faultless)
  {
    RotationText(was, moved, 0, written);
    assert Content(moved, 0) == Content(was - {5}, 0);
    ShiftText(moved);
    if NoGaps(was) {
      RotationKeeps(was, moved);
    }
  }

  lemma MoveOne(was: Files, now: Files, index: nat)
    requires MovedDownTo(was, now, index) && 0 < index
    ensures MovedDownTo(was, if index in now then now[index + 1 := now[index]] - {index} else now, index - 1)
  {}
}
