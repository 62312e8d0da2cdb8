/** Choosing a name for an upload (app/file_security.py, `reserve_unique_path`). A name is the last
    component of a path. */
module UniquePath {
  import opened PyText

  /** `str.rfind('.')`. */
  function LastDot(s: string): (i: int)
    ensures -1 <= i < |s|
    ensures i >= 0 ==> s[i] == '.'
    ensures forall j :: i < j < |s| ==> s[j] != '.'
  {
    if s == [] then -1 else if s[|s| - 1] == '.' then |s| - 1 else LastDot(s[..|s| - 1])
  }

  /** `PurePath.suffix`: neither a leading nor a final dot starts one. */
  function Suffix(name: string): string {
    var i := LastDot(name);
    if 0 < i < |name| - 1 then name[i..] else ""
  }

  /** `PurePath.stem`. */
  function Stem(name: string): string {
    var i := LastDot(name);
    if 0 < i < |name| - 1 then name[..i] else name
  }

  /** A name is its stem and its suffix, cut at the last dot unless that is its first or its last character. */
  lemma SuffixExactly(name: string, i: int)
    requires -1 <= i < |name| && (i >= 0 ==> name[i] == '.') && forall j :: i < j < |name| ==> name[j] != '.'
    ensures if 0 < i < |name| - 1 then Stem(name) == name[..i] && Suffix(name) == name[i..]
            else Stem(name) == name && Suffix(name) == ""
  {
    assert LastDot(name) == i;
  }

  function SafeName(filename: string): string {
    if filename == "" then "upload.bin" else filename
  }

  /** The k-th name tried. */
  function Candidate(name: string, k: nat): string {
    if k == 0 then name
    else (if Stem(name) == "" then "upload" else Stem(name)) + "_" + Decimal(k)
         + (if Suffix(name) == "" then ".bin" else Suffix(name))
  }

  /** What `exists()` answers in the target directory: its own names, and the two names that lead to
      the directory itself or above it. */
  function Taken(names: set<string>, name: string): set<string> {
    names + if name == "" || name == ".." then {name} else {}
  }

  lemma CandidateLonger(name: string, k: nat)
    requires k > 0
    ensures |Candidate(name, k)| > |name|
    ensures '_' in Candidate(name, k)
  {}

  /** No name is tried twice. */
  lemma CandidatesDiffer(name: string, a: nat, b: nat)
    requires Candidate(name, a) == Candidate(name, b)
    ensures a == b
  {
    if a > 0 {
      CandidateLonger(name, a);
    }
    if b > 0 {
      CandidateLonger(name, b);
    }
    if a > 0 && b > 0 {
      var head := (if Stem(name) == "" then "upload" else Stem(name)) + "_";
      var tail := if Suffix(name) == "" then ".bin" else Suffix(name);
      var s := Candidate(name, a);
      assert s == head + Decimal(a) + tail == head + Decimal(b) + tail;
      assert Decimal(a) == s[|head|..|s| - |tail|] == Decimal(b);
      DecimalInjective(a, b);
    }
  }

  function Tried(name: string, k: nat): set<string> {
    if k == 0 then {} else Tried(name, k - 1) + {Candidate(name, k - 1)}
  }

  lemma {:induction false} TriedHas(name: string, k: nat, j: nat)
    ensures Candidate(name, j) in Tried(name, k) <==> j < k
  {
    if k > 0 {
      TriedHas(name, k - 1, j);
      if Candidate(name, j) == Candidate(name, k - 1) {
        CandidatesDiffer(name, j, k - 1);
      }
    }
  }

  lemma {:induction false} TriedSize(name: string, k: nat)
    ensures |Tried(name, k)| == k
  {
    if k > 0 {
      TriedSize(name, k - 1);
      TriedHas(name, k - 1, k - 1);
    }
  }

  lemma SubsetSize(a: set<string>, b: set<string>)
    requires a <= b
    ensures |a| <= |b|
  {
    assert b == a + (b - a);
  }

  /** The pigeonhole: as many tries failed as there are names taken, at most. */
  lemma FailuresBounded(name: string, names: set<string>, k: nat)
    requires Tried(name, k) <= Taken(names, name)
    ensures k <= |Taken(names, name)|
  {
    TriedSize(name, k);
    SubsetSize(Tried(name, k), Taken(names, name));
  }

  lemma {:induction false} LastDotAt(head: string, tail: string)
    requires '.' !in tail
    ensures LastDot(head + "." + tail) == |head|
  {
    var s := head + "." + tail;
    if tail != [] {
      var shorter := tail[..|tail| - 1];
      assert s[..|s| - 1] == head + "." + shorter && s[|s| - 1] == tail[|tail| - 1];
      assert '.' !in shorter;
      LastDotAt(head, shorter);
    }
  }

  /** A numbered name keeps the suffix, and one without a suffix gets `.bin`. */
  lemma SuffixOfCandidate(name: string, k: nat)
    requires k > 0
    ensures Suffix(Candidate(name, k)) == if Suffix(name) == "" then ".bin" else Suffix(name)
  {
    var head := (if Stem(name) == "" then "upload" else Stem(name)) + "_" + Decimal(k);
    var tail := if Suffix(name) == "" then ".bin" else Suffix(name);
    var bare := tail[1..];
    assert tail == "." + bare;
    assert '.' !in bare by {
      if Suffix(name) != "" {
        var i := LastDot(name);
        assert forall j :: 0 <= j < |bare| ==> bare[j] == name[i + 1 + j];
      }
    }
    assert Candidate(name, k) == head + "." + bare;
    LastDotAt(head, bare);
  }

  predicate Exists(names: set<string>, destination: string) {
    destination in names || destination == "" || destination == ".."
  }

  /** The loop's state: all names before the current one are taken. */
  predicate Trying(names: set<string>, name: string, counter: nat, destination: string) {
    && counter >= 1 && destination == Candidate(name, counter - 1) && (counter > 1 ==> Exists(names, name))
    && Tried(name, counter - 1) <= Taken(names, name) && counter - 1 <= |Taken(names, name)|
  }

  lemma NextTry(names: set<string>, name: string, counter: nat, destination: string)
    requires Trying(names, name, counter, destination) && Exists(names, destination)
    ensures Candidate(name, counter) == (if Stem(name) == "" then "upload" else Stem(name)) + "_" + Decimal(counter)
                                        + (if Suffix(name) == "" then ".bin" else Suffix(name))
    ensures Trying(names, name, counter + 1, Candidate(name, counter)) && counter <= |Taken(names, name)|
  {
    if counter > 1 {
      CandidateLonger(name, counter - 1);
    }
    FailuresBounded(name, names, counter);
  }

  lemma FirstFree(names: set<string>, name: string, counter: nat, destination: string)
    requires Trying(names, name, counter, destination) && !Exists(names, destination) && name != ""
    ensures counter <= |names| + if name == ".." then 2 else 1
    ensures var stem, suffix := Stem(name), Suffix(name);
            destination == if counter == 1 then name
                           else (if stem == "" then "upload" else stem) + "_" + Decimal(counter - 1)
                                + (if suffix == "" then ".bin" else suffix)
    ensures forall k :: 0 <= k < counter - 1 ==> Candidate(name, k) in Taken(names, name)
    ensures Suffix(destination) != Suffix(name) <==> Suffix(name) == "" && Exists(names, name)
  {
    SubsetSize(Taken(names, name), names + if name == ".." then {".."} else {});
    SuffixLostExactly(name, counter - 1);
    forall k | 0 <= k < counter - 1 ensures Candidate(name, k) in Taken(names, name) {
      TriedHas(name, counter - 1, k);
    }
    assert |names + {".."}| <= |names| + 1;
  }

  /** The loop over numbered names. It ends after at most one try more than there are names, with the
      first name that is free. */
  method ReserveUniquePath(names: set<string>, filename: string) returns (destination: string, tries: nat)
    ensures 1 <= tries <= |names| + (if filename == ".." then 2 else 1)
    ensures destination == Candidate(SafeName(filename), tries - 1)
    ensures var name := if filename == "" then "upload.bin" else filename;
            var stem, suffix := Stem(name), Suffix(name);
            destination == if tries == 1 then name
                           else (if stem == "" then "upload" else stem) + "_" + Decimal(tries - 1)
                                + (if suffix == "" then ".bin" else suffix)
    ensures destination !in names && destination != "" && destination != ".."
    ensures forall k :: 0 <= k < tries - 1 ==> Candidate(SafeName(filename), k) in Taken(names, SafeName(filename))
    // The suffix is lost exactly when the name has none and is taken.
    ensures Suffix(destination) != Suffix(SafeName(filename))
            <==> Suffix(SafeName(filename)) == "" && Exists(names, SafeName(filename))
  {
    var name := SafeName(filename);
    var stem := if Stem(name) == "" then "upload" else Stem(name);
    var suffix := if Suffix(name) == "" then ".bin" else Suffix(name);
    destination := name;
    var counter := 1;
    while Exists(names, destination)
      invariant Trying(names, name, counter, destination)
      decreases |Taken(names, name)| + 1 - counter
    {
      NextTry(names, name, counter, destination);
      destination := stem + "_" + Decimal(counter) + suffix;
      assert destination == Candidate(name, counter);
      counter := counter + 1;
    }
    tries := counter;
    FirstFree(names, name, counter, destination);
  }

  /** Of the names tried, the suffix differs exactly for the numbered ones of a name without one. */
  lemma SuffixLostExactly(name: string, k: nat)
    ensures Suffix(Candidate(name, k)) != Suffix(name) <==> k > 0 && Suffix(name) == ""
  {
    if k > 0 {
      SuffixOfCandidate(name, k);
    }
  }
}
