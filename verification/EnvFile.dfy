/** The env files of the integrations (tools/provision_rtmd_integrations.py): their parser, their
    printer and the secrets that survive provisioning again. */
module EnvFile {
  import opened Wrappers
  import opened PyText

  /** A Python dict of strings: its pairs in insertion order. */
  type Env = seq<(string, string)>

  /** `str.isalnum` per character stays a parameter: any choice that leaves out blanks, line breaks
      and the punctuation of the format. */
  ghost predicate Letters(alnum: char -> bool) {
    forall c :: alnum(c) ==> !IsSpace(c) && !IsLineBreak(c) && c != '=' && c != '#' && c != '_'
  }

  predicate Has(env: Env, key: string) {
    exists i :: 0 <= i < |env| && env[i].0 == key
  }

  function Lookup(env: Env, key: string): Option<string> {
    if env == [] then None else if env[0].0 == key then Some(env[0].1) else Lookup(env[1..], key)
  }

  /** `d[key] = value`: a known key keeps its place. */
  function Put(env: Env, key: string, value: string): Env {
    if env == [] then [(key, value)]
    else if env[0].0 == key then [(key, value)] + env[1..]
    else [env[0]] + Put(env[1..], key, value)
  }

  predicate UniqueKeys(env: Env) {
    forall i, j :: 0 <= i < j < |env| ==> env[i].0 != env[j].0
  }

  // ---- Lines --------------------------------------------------------------------------------

  predicate IsEquals(c: char) { c == '=' }

  /** Where the first character that stops is, or the length. */
  function First(s: string, stop: char -> bool): (n: nat)
    ensures n <= |s|
    ensures n < |s| ==> stop(s[n])
    ensures forall i :: 0 <= i < n ==> !stop(s[i])
  {
    if s == [] || stop(s[0]) then 0 else 1 + First(s[1..], stop)
  }

  lemma FirstIs(s: string, stop: char -> bool, n: nat)
    requires n < |s| && stop(s[n]) && forall i :: 0 <= i < n ==> !stop(s[i])
    ensures First(s, stop) == n
  {}

  /** `str.splitlines()`. */
  function SplitLines(t: string): seq<string>
    decreases |t|
  {
    var n := First(t, IsLineBreak);
    if t == [] then []
    else if n == |t| then [t]
    else
      var next := if t[n] == '\r' && n + 1 < |t| && t[n + 1] == '\n' then n + 2 else n + 1;
      [t[..n]] + SplitLines(t[next..])
  }

  predicate OneLine(s: string) {
    forall i :: 0 <= i < |s| ==> !IsLineBreak(s[i])
  }

  lemma {:induction false} LinesAreOneLine(t: string)
    ensures forall i :: 0 <= i < |SplitLines(t)| ==> OneLine(SplitLines(t)[i])
    decreases |t|
  {
    var n := First(t, IsLineBreak);
    if t != [] && n < |t| {
      var next := if t[n] == '\r' && n + 1 < |t| && t[n + 1] == '\n' then n + 2 else n + 1;
      LinesAreOneLine(t[next..]);
    }
  }

  lemma SplitFirstLine(line: string, rest: string)
    requires OneLine(line)
    ensures SplitLines(line + "\n" + rest) == [line] + SplitLines(rest)
  {
    var t := line + "\n" + rest;
    var n := |line|;
    assert t[n] == '\n' && forall i :: 0 <= i < n ==> t[i] == line[i];
    FirstIs(t, IsLineBreak, n);
    assert t[..n] == line && t[n + 1..] == rest;
  }

  // ---- Entries ------------------------------------------------------------------------------

  predicate GoodKey(key: string, alnum: char -> bool) {
    && (forall i :: 0 <= i < |key| ==> key[i] == '_' || alnum(key[i]))
    && (exists i :: 0 <= i < |key| && key[i] != '_')
  }

  function ParseLine(raw: string, alnum: char -> bool): Option<(string, string)> {
    var line := Strip(raw);
    var n := First(line, IsEquals);
    if line == [] || line[0] == '#' || n == |line| then None
    else
      var key := Strip(line[..n]);
      if key != [] && GoodKey(key, alnum) then Some((key, Strip(line[n + 1..]))) else None
  }

  /** A line that is no comment, cut at its first `=`, with a key of letters and underscores, not only the latter. */
  ghost predicate Holds(raw: string, key: string, value: string, alnum: char -> bool, cut: int) {
    var line := Strip(raw);
    && 0 <= cut < |line| && line[cut] == '=' && (forall i :: 0 <= i < cut ==> line[i] != '=') && line[0] != '#'
    && key == Strip(line[..cut]) && value == Strip(line[cut + 1..])
    && (forall c :: c in key ==> c == '_' || alnum(c)) && (exists c :: c in key && c != '_')
  }

  /** What a line yields: the pair it holds, if it holds one. */
  lemma LineExactly(raw: string, key: string, value: string, alnum: char -> bool)
    ensures ParseLine(raw, alnum) == Some((key, value)) <==> exists cut :: Holds(raw, key, value, alnum, cut)
  {
    var line := Strip(raw);
    var n := First(line, IsEquals);
    GoodKeyExactly(key, alnum);
    if cut :| Holds(raw, key, value, alnum, cut) {
      FirstIs(line, IsEquals, cut);
    }
    if ParseLine(raw, alnum) == Some((key, value)) {
      assert Holds(raw, key, value, alnum, n);
    }
  }

  lemma GoodKeyExactly(key: string, alnum: char -> bool)
    ensures GoodKey(key, alnum) <==>
            (forall c :: c in key ==> c == '_' || alnum(c)) && (exists c :: c in key && c != '_')
  {
    if GoodKey(key, alnum) {
      var i :| 0 <= i < |key| && key[i] != '_';
      assert key[i] in key;
    }
    if (forall c :: c in key ==> c == '_' || alnum(c)) && (exists c :: c in key && c != '_') {
      var c :| c in key && c != '_';
      assert exists i :: 0 <= i < |key| && key[i] == c;
      forall i | 0 <= i < |key| ensures key[i] == '_' || alnum(key[i]) {
        assert key[i] in key;
      }
    }
  }

  function Step(env: Env, line: string, alnum: char -> bool): Env {
    match ParseLine(line, alnum)
    case None => env
    case Some(pair) => Put(env, pair.0, pair.1)
  }

  function Fold(env: Env, lines: seq<string>, alnum: char -> bool): Env
    decreases |lines|
  {
    if lines == [] then env else Fold(Step(env, lines[0], alnum), lines[1..], alnum)
  }

  function Parse(text: string, alnum: char -> bool): Env {
    Fold([], SplitLines(text), alnum)
  }

  /** The dict-filling loop. */
  method ParseEnv(text: string, alnum: char -> bool) returns (output: Env)
    ensures output == Parse(text, alnum)
  {
    output := [];
    var lines := SplitLines(text);
    for i := 0 to |lines|
      invariant Fold(output, lines[i..], alnum) == Parse(text, alnum)
    {
      assert lines[i..][1..] == lines[i + 1..];
      var line := Strip(lines[i]);
      var n := First(line, IsEquals);
      if line == [] || line[0] == '#' || n == |line| {
        continue;
      }
      var key := Strip(line[..n]);
      if key != [] && GoodKey(key, alnum) {
        output := Put(output, key, Strip(line[n + 1..]));
      }
    }
    assert lines[|lines|..] == [];
  }

  function Render(env: Env): string {
    if env == [] then "" else env[0].0 + "=" + env[0].1 + "\n" + Render(env[1..])
  }

  // ---- Round trips --------------------------------------------------------------------------

  predicate GoodValue(value: string) {
    Stripped(value) && OneLine(value)
  }

  predicate WellFormed(env: Env, alnum: char -> bool) {
    && UniqueKeys(env)
    && forall i :: 0 <= i < |env| ==> GoodKey(env[i].0, alnum) && GoodValue(env[i].1)
  }

  lemma {:induction false} PutNew(env: Env, key: string, value: string)
    requires !Has(env, key)
    ensures Put(env, key, value) == env + [(key, value)]
  {
    if env != [] {
      assert env[0].0 != key;
      forall i | 0 <= i < |env[1..]| ensures env[1..][i].0 != key {
        assert env[1..][i] == env[i + 1];
      }
      PutNew(env[1..], key, value);
      assert env == [env[0]] + env[1..];
    }
  }

  lemma {:induction false} PutAt(env: Env, key: string, value: string, i: nat)
    requires i < |env| && env[i].0 == key && forall j :: 0 <= j < i ==> env[j].0 != key
    ensures Put(env, key, value) == env[i := (key, value)]
  {
    if i > 0 {
      forall j | 0 <= j < i - 1 ensures env[1..][j].0 != key {
        assert env[1..][j] == env[j + 1];
      }
      assert env[0].0 != key;
      PutAt(env[1..], key, value, i - 1);
    }
  }

  lemma PutKeepsForm(env: Env, key: string, value: string, alnum: char -> bool)
    requires WellFormed(env, alnum) && GoodKey(key, alnum) && GoodValue(value)
    ensures WellFormed(Put(env, key, value), alnum)
  {
    if Has(env, key) {
      var i :| 0 <= i < |env| && env[i].0 == key;
      PutAt(env, key, value, i);
    } else {
      PutNew(env, key, value);
    }
  }

  /** What a line yields is a good key and a good value. */
  lemma ParsedLineIsGood(raw: string, alnum: char -> bool)
    requires OneLine(raw) && ParseLine(raw, alnum).Some?
    ensures GoodValue(ParseLine(raw, alnum).value.1)
  {
    var line := Strip(raw);
    var n := First(line, IsEquals);
    StripShape(raw);
    StripShape(line[n + 1..]);
    var value := Strip(line[n + 1..]);
    forall i | 0 <= i < |value| ensures !IsLineBreak(value[i]) {
      assert value[i] in line[n + 1..] && value[i] in line && value[i] in raw;
    }
  }

  lemma {:induction false} FoldKeepsForm(env: Env, lines: seq<string>, alnum: char -> bool)
    requires WellFormed(env, alnum) && forall i :: 0 <= i < |lines| ==> OneLine(lines[i])
    ensures WellFormed(Fold(env, lines, alnum), alnum)
    decreases |lines|
  {
    if lines != [] {
      var parsed := ParseLine(lines[0], alnum);
      if parsed.Some? {
        ParsedLineIsGood(lines[0], alnum);
        PutKeepsForm(env, parsed.value.0, parsed.value.1, alnum);
      }
      FoldKeepsForm(Step(env, lines[0], alnum), lines[1..], alnum);
    }
  }

  /** Whatever the text, what is parsed from it is well formed. */
  lemma ParseIsWellFormed(text: string, alnum: char -> bool)
    ensures WellFormed(Parse(text, alnum), alnum)
  {
    LinesAreOneLine(text);
    FoldKeepsForm([], SplitLines(text), alnum);
  }

  lemma EntryLineShape(key: string, value: string, alnum: char -> bool)
    requires Letters(alnum) && GoodKey(key, alnum) && GoodValue(value)
    ensures var line := key + "=" + value; OneLine(line) && Strip(line) == line && line[0] != '#'
    ensures Strip(key) == key
  {}

  /** A rendered entry reads back as itself. */
  lemma LineReadsBack(key: string, value: string, alnum: char -> bool)
    requires Letters(alnum) && GoodKey(key, alnum) && GoodValue(value)
    ensures OneLine(key + "=" + value)
    ensures ParseLine(key + "=" + value, alnum) == Some((key, value))
  {
    var line, n := key + "=" + value, |key|;
    EntryLineShape(key, value, alnum);
    StripShape(value);
    assert line[n] == '=' && forall i :: 0 <= i < n ==> line[i] == key[i];
    FirstIs(line, IsEquals, n);
    assert line[..n] == key && line[n + 1..] == value;
  }

  lemma StepAppends(env: Env, n: nat, alnum: char -> bool)
    requires Letters(alnum) && WellFormed(env, alnum) && n < |env|
    ensures Step(env[..n], env[n].0 + "=" + env[n].1, alnum) == env[..n + 1]
  {
    var (key, value) := env[n];
    assert GoodKey(key, alnum) && GoodValue(value);
    LineReadsBack(key, value, alnum);
    PutNew(env[..n], key, value);
    assert env[..n] + [(key, value)] == env[..n + 1];
  }

  lemma FoldCons(env: Env, line: string, lines: seq<string>, alnum: char -> bool)
    ensures Fold(env, [line] + lines, alnum) == Fold(Step(env, line, alnum), lines, alnum)
  {}

  function Lines(env: Env): seq<string> {
    if env == [] then [] else [env[0].0 + "=" + env[0].1] + Lines(env[1..])
  }

  lemma {:induction false} RenderedLines(env: Env, alnum: char -> bool)
    requires Letters(alnum) && forall i :: 0 <= i < |env| ==> GoodKey(env[i].0, alnum) && GoodValue(env[i].1)
    ensures SplitLines(Render(env)) == Lines(env)
  {
    if env != [] {
      LineReadsBack(env[0].0, env[0].1, alnum);
      SplitFirstLine(env[0].0 + "=" + env[0].1, Render(env[1..]));
      RenderedLines(env[1..], alnum);
    }
  }

  lemma {:induction false} FoldReadsBack(env: Env, n: nat, alnum: char -> bool)
    requires Letters(alnum) && WellFormed(env, alnum) && n <= |env|
    ensures Fold(env[..n], Lines(env[n..]), alnum) == env
    decreases |env| - n
  {
    if n == |env| {
      assert env[..n] == env;
    } else {
      StepAppends(env, n, alnum);
      FoldCons(env[..n], env[n].0 + "=" + env[n].1, Lines(env[n + 1..]), alnum);
      assert env[n..][1..] == env[n + 1..];
      FoldReadsBack(env, n + 1, alnum);
    }
  }

  /** Reading back what was written returns it exactly when it was well formed. */
  lemma RoundTripExactly(env: Env, alnum: char -> bool)
    requires Letters(alnum)
    ensures Parse(Render(env), alnum) == env <==> WellFormed(env, alnum)
  {
    ParseIsWellFormed(Render(env), alnum);
    if WellFormed(env, alnum) {
      RenderedLines(env, alnum);
      FoldReadsBack(env, 0, alnum);
      assert env[..0] == [] && env[0..] == env;
    }
  }

  /** For every text: parsing, printing and parsing again changes nothing. */
  lemma ParseRenderParse(text: string, alnum: char -> bool)
    requires Letters(alnum)
    ensures Parse(Render(Parse(text, alnum)), alnum) == Parse(text, alnum)
  {
    ParseIsWellFormed(text, alnum);
    RoundTripExactly(Parse(text, alnum), alnum);
  }

  // ---- Secrets over repeated provisioning ---------------------------------------------------

  /** A line of the backend file: a value the tool fixes anew, or a secret it tries to keep. */
  datatype Entry = Fixed(key: string, value: string) | Secret(key: string, token: string)

  predicate Contains(text: string, part: string) {
    part <= text || (text != [] && Contains(text[1..], part))
  }

  /** A stored secret is kept if it is not blank and not the placeholder of the example file. */
  predicate Usable(current: string) {
    current != [] && !Contains(Lower(current), "change-me")
  }

  function PersistentSecret(existing: Env, key: string, token: string): string {
    var current := match Lookup(existing, key) case None => "" case Some(v) => Strip(v);
    if Usable(current) then current else token
  }

  function ValueOf(existing: Env, e: Entry): string {
    match e
    case Fixed(_, value) => value
    case Secret(key, token) => PersistentSecret(existing, key, token)
  }

  /** The example's pairs, overwritten and extended by the entries. */
  function Backend(example: Env, existing: Env, entries: seq<Entry>): Env {
    if entries == [] then example
    else
      var n := |entries| - 1;
      Put(Backend(example, existing, entries[..n]), entries[n].key, ValueOf(existing, entries[n]))
  }

  /** One provisioning run: the example file's text and the entries with their fresh secrets. */
  datatype Provision = Provision(example: string, entries: seq<Entry>)

  /** The entries are the keys of one dict display, with values the format can hold; a fresh secret is
      URL-safe text that is not the placeholder. */
  predicate Admissible(p: Provision, alnum: char -> bool) {
    && (forall i, j :: 0 <= i < j < |p.entries| ==> p.entries[i].key != p.entries[j].key)
    && forall e :: e in p.entries ==>
         && GoodKey(e.key, alnum)
         && match e case Fixed(_, v) => GoodValue(v) case Secret(_, token) => GoodValue(token) && Usable(token)
  }

  function Existing(file: Option<string>, alnum: char -> bool): Env {
    match file
    case None => []
    case Some(text) => Parse(text, alnum)
  }

  function Provisioned(file: Option<string>, p: Provision, alnum: char -> bool): string {
    Render(Backend(Parse(p.example, alnum), Existing(file, alnum), p.entries))
  }

  function Runs(file: Option<string>, ps: seq<Provision>, alnum: char -> bool): Option<string> {
    if ps == [] then file else Some(Provisioned(Runs(file, ps[..|ps| - 1], alnum), ps[|ps| - 1], alnum))
  }

  lemma {:induction false} LookupPut(env: Env, key: string, value: string, other: string)
    ensures Lookup(Put(env, key, value), other) == if other == key then Some(value) else Lookup(env, other)
  {
    if env != [] && env[0].0 != key {
      LookupPut(env[1..], key, value, other);
    }
  }

  lemma {:induction false} LookupGood(env: Env, key: string, alnum: char -> bool)
    requires WellFormed(env, alnum) && Lookup(env, key).Some?
    ensures GoodValue(Lookup(env, key).value)
  {
    if env[0].0 != key {
      LookupGood(env[1..], key, alnum);
    }
  }

  lemma SecretIsGood(existing: Env, key: string, token: string, alnum: char -> bool)
    requires WellFormed(existing, alnum) && GoodValue(token) && Usable(token)
    ensures GoodValue(PersistentSecret(existing, key, token)) && Usable(PersistentSecret(existing, key, token))
  {
    if Lookup(existing, key).Some? {
      LookupGood(existing, key, alnum);
      StripShape(Lookup(existing, key).value);
    }
  }

  lemma {:induction false} BackendForm(example: Env, existing: Env, entries: seq<Entry>, alnum: char -> bool)
    requires WellFormed(example, alnum) && WellFormed(existing, alnum)
    requires forall e :: e in entries ==>
               && GoodKey(e.key, alnum)
               && match e case Fixed(_, v) => GoodValue(v) case Secret(_, token) => GoodValue(token) && Usable(token)
    ensures WellFormed(Backend(example, existing, entries), alnum)
  {
    if entries != [] {
      var n := |entries| - 1;
      BackendForm(example, existing, entries[..n], alnum);
      assert entries[n] in entries;
      if entries[n].Secret? {
        SecretIsGood(existing, entries[n].key, entries[n].token, alnum);
      }
      PutKeepsForm(Backend(example, existing, entries[..n]), entries[n].key, ValueOf(existing, entries[n]), alnum);
    }
  }

  lemma {:induction false} BackendLookup(example: Env, existing: Env, entries: seq<Entry>, i: nat)
    requires i < |entries| && forall j :: i < j < |entries| ==> entries[j].key != entries[i].key
    ensures Lookup(Backend(example, existing, entries), entries[i].key) == Some(ValueOf(existing, entries[i]))
  {
    var n := |entries| - 1;
    LookupPut(Backend(example, existing, entries[..n]), entries[n].key, ValueOf(existing, entries[n]), entries[i].key);
    if i < n {
      BackendLookup(example, existing, entries[..n], i);
    }
  }

  lemma ExistingIsWellFormed(file: Option<string>, alnum: char -> bool)
    ensures WellFormed(Existing(file, alnum), alnum)
  {
    if file.Some? {
      ParseIsWellFormed(file.value, alnum);
    }
  }

  /** What a run writes reads back as exactly what it built, and its secrets are kept or fresh. */
  lemma ProvisionReadsBack(file: Option<string>, p: Provision, i: nat, alnum: char -> bool)
    requires Letters(alnum) && Admissible(p, alnum) && i < |p.entries|
    ensures var after := Existing(Some(Provisioned(file, p, alnum)), alnum);
            && after == Backend(Parse(p.example, alnum), Existing(file, alnum), p.entries)
            && Lookup(after, p.entries[i].key) == Some(ValueOf(Existing(file, alnum), p.entries[i]))
  {
    ExistingIsWellFormed(file, alnum);
    ParseIsWellFormed(p.example, alnum);
    BackendForm(Parse(p.example, alnum), Existing(file, alnum), p.entries, alnum);
    RoundTripExactly(Backend(Parse(p.example, alnum), Existing(file, alnum), p.entries), alnum);
    BackendLookup(Parse(p.example, alnum), Existing(file, alnum), p.entries, i);
  }

  ghost predicate HasAt(text: string, part: string, i: int) {
    0 <= i <= |text| && part <= text[i..]
  }

  lemma {:induction false} ContainsExactly(text: string, part: string)
    ensures Contains(text, part) <==> exists i :: HasAt(text, part, i)
  {
    if part <= text {
      assert HasAt(text, part, 0);
    } else if text != [] {
      var rest := text[1..];
      ContainsExactly(rest, part);
      if i :| HasAt(rest, part, i) {
        assert text[i + 1..] == rest[i..];
        assert HasAt(text, part, i + 1);
      }
      if i :| HasAt(text, part, i) {
        assert i > 0 && rest[i - 1..] == text[i..];
        assert HasAt(rest, part, i - 1);
      }
    }
  }

  /** The placeholder of the example files stands somewhere in the secret, in whatever case. */
  ghost predicate IsPlaceholder(secret: string) {
    exists i :: HasAt(Lower(secret), "change-me", i)
  }

  /** What a run makes of an entry's key: a fixed value is set; a stored secret that is not blank and no
      placeholder stays, and any other becomes the fresh one. */
  ghost function NewValue(stored: Option<string>, e: Entry): string {
    if e.Fixed? then e.value
    else if stored.Some? && Strip(stored.value) != "" && !IsPlaceholder(Strip(stored.value)) then Strip(stored.value)
    else e.token
  }

  lemma ValueExactly(existing: Env, e: Entry)
    ensures ValueOf(existing, e) == NewValue(Lookup(existing, e.key), e)
  {
    if Lookup(existing, e.key).Some? {
      ContainsExactly(Lower(Strip(Lookup(existing, e.key).value)), "change-me");
    }
  }

  lemma ProvisionedParses(file: Option<string>, p: Provision, alnum: char -> bool)
    requires Letters(alnum) && Admissible(p, alnum)
    ensures Parse(Provisioned(file, p, alnum), alnum) == Backend(Parse(p.example, alnum), Existing(file, alnum), p.entries)
  {
    ExistingIsWellFormed(file, alnum);
    ParseIsWellFormed(p.example, alnum);
    BackendForm(Parse(p.example, alnum), Existing(file, alnum), p.entries, alnum);
    RoundTripExactly(Backend(Parse(p.example, alnum), Existing(file, alnum), p.entries), alnum);
  }

  /** What the file of a run holds under each key: the entries' values, and all else as in the example. */
  lemma ValuesExactly(file: Option<string>, p: Provision, key: string, alnum: char -> bool)
    requires Letters(alnum) && Admissible(p, alnum)
    ensures var after := Parse(Provisioned(file, p, alnum), alnum);
            && (forall e :: e in p.entries && e.key == key ==>
                  Lookup(after, key) == Some(NewValue(Lookup(Existing(file, alnum), key), e)))
            && ((forall e :: e in p.entries ==> e.key != key) ==> Lookup(after, key) == Lookup(Parse(p.example, alnum), key))
  {
    var example, existing := Parse(p.example, alnum), Existing(file, alnum);
    ProvisionedParses(file, p, alnum);
    forall e | e in p.entries && e.key == key
      ensures Lookup(Backend(example, existing, p.entries), key) == Some(NewValue(Lookup(existing, key), e))
    {
      var i :| 0 <= i < |p.entries| && p.entries[i] == e;
      BackendLookup(example, existing, p.entries, i);
      ValueExactly(existing, e);
    }
    if forall e :: e in p.entries ==> e.key != key {
      BackendElsewhere(example, existing, p.entries, key);
    }
  }

  /** The same of the last of any runs, over the file the earlier ones left. */
  lemma LastRunExactly(file: Option<string>, ps: seq<Provision>, p: Provision, key: string, alnum: char -> bool)
    requires Letters(alnum) && Admissible(p, alnum)
    ensures var was, now := Existing(Runs(file, ps, alnum), alnum), Existing(Runs(file, ps + [p], alnum), alnum);
            && (forall e :: e in p.entries && e.key == key ==> Lookup(now, key) == Some(NewValue(Lookup(was, key), e)))
            && ((forall e :: e in p.entries ==> e.key != key) ==> Lookup(now, key) == Lookup(Parse(p.example, alnum), key))
  {
    assert (ps + [p])[..|ps|] == ps;
    ValuesExactly(Runs(file, ps, alnum), p, key, alnum);
  }

  lemma {:induction false} BackendElsewhere(example: Env, existing: Env, entries: seq<Entry>, key: string)
    requires forall e :: e in entries ==> e.key != key
    ensures Lookup(Backend(example, existing, entries), key) == Lookup(example, key)
  {
    if entries != [] {
      var n := |entries| - 1;
      BackendElsewhere(example, existing, entries[..n], key);
      assert entries[n] in entries;
      LookupPut(Backend(example, existing, entries[..n]), entries[n].key, ValueOf(existing, entries[n]), key);
    }
  }

  predicate Provides(p: Provision, key: string) {
    exists i :: 0 <= i < |p.entries| && p.entries[i].Secret? && p.entries[i].key == key
  }

  predicate AllProvide(ps: seq<Provision>, key: string, alnum: char -> bool) {
    ps == [] || (AllProvide(ps[..|ps| - 1], key, alnum) && Admissible(ps[|ps| - 1], alnum) && Provides(ps[|ps| - 1], key))
  }

  lemma RunKeepsSecret(file: Option<string>, p: Provision, key: string, current: string, alnum: char -> bool)
    requires Letters(alnum) && Admissible(p, alnum) && Provides(p, key)
    requires Lookup(Existing(file, alnum), key) == Some(current) && Usable(current)
    ensures Lookup(Existing(Some(Provisioned(file, p, alnum)), alnum), key) == Some(current)
  {
    var i :| 0 <= i < |p.entries| && p.entries[i].Secret? && p.entries[i].key == key;
    ProvisionReadsBack(file, p, i, alnum);
    ExistingIsWellFormed(file, alnum);
    LookupGood(Existing(file, alnum), key, alnum);
    StripShape(current);
  }

  /** Provisioning again, any number of times and with any fresh secrets and settings, never changes
      a usable secret. */
  lemma {:induction false} SecretsSurvive(file: Option<string>, ps: seq<Provision>, key: string, current: string, alnum: char -> bool)
    requires Letters(alnum) && AllProvide(ps, key, alnum)
    requires Lookup(Existing(file, alnum), key) == Some(current) && Usable(current)
    ensures Lookup(Existing(Runs(file, ps, alnum), alnum), key) == Some(current)
  {
    if ps != [] {
      var n := |ps| - 1;
      SecretsSurvive(file, ps[..n], key, current, alnum);
      RunKeepsSecret(Runs(file, ps[..n], alnum), ps[n], key, current, alnum);
    }
  }

  /** The first run already settles: from any file, or none, every later run keeps its secrets. */
  lemma FirstRunSettles(file: Option<string>, p: Provision, ps: seq<Provision>, i: nat, alnum: char -> bool)
    requires Letters(alnum) && Admissible(p, alnum) && i < |p.entries| && p.entries[i].Secret?
    requires AllProvide(ps, p.entries[i].key, alnum)
    ensures var first := Some(Provisioned(file, p, alnum));
            && Lookup(Existing(first, alnum), p.entries[i].key).Some?
            && Lookup(Existing(Runs(first, ps, alnum), alnum), p.entries[i].key)
               == Lookup(Existing(first, alnum), p.entries[i].key)
  {
    ProvisionReadsBack(file, p, i, alnum);
    ExistingIsWellFormed(file, alnum);
    assert p.entries[i] in p.entries;
    var secret := ValueOf(Existing(file, alnum), p.entries[i]);
    SecretIsGood(Existing(file, alnum), p.entries[i].key, p.entries[i].token, alnum);
    SecretsSurvive(Some(Provisioned(file, p, alnum)), ps, p.entries[i].key, secret, alnum);
  }

  /** The backend's env file on disk. */
  class BackendFile {
    var text: Option<string>

    constructor (text: Option<string>)
      ensures this.text == text
    {
      this.text := text;
    }

    method Rewrite(p: Provision, alnum: char -> bool)
      modifies this
      ensures text == Some(Provisioned(old(text), p, alnum))
    {
      var backend := ParseEnv(p.example, alnum);
      var existing: Env := [];
      if text.Some? {
        existing := ParseEnv(text.value, alnum);
      }
      for i := 0 to |p.entries|
        invariant text == old(text)
        invariant backend == Backend(Parse(p.example, alnum), existing, p.entries[..i])
      {
        assert p.entries[..i + 1][..i] == p.entries[..i];
        backend := Put(backend, p.entries[i].key, ValueOf(existing, p.entries[i]));
      }
      assert p.entries[..|p.entries|] == p.entries;
      text := Some(Render(backend));
    }
  }
}
