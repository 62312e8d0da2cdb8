/** The text primitives the modelled Python and SQL code relies on. */
module PyText {

  /** `str.isspace` per character. */
  predicate IsSpace(c: char) {
    || '\t' <= c <= '\r' || '\U{1c}' <= c <= ' ' || c == '\U{85}' || c == '\U{a0}' || c == '\U{1680}'
    || '\U{2000}' <= c <= '\U{200a}' || c == '\U{2028}' || c == '\U{2029}' || c == '\U{202f}'
    || c == '\U{205f}' || c == '\U{3000}'
  }

  /** The characters at which `str.splitlines` ends a line. */
  predicate IsLineBreak(c: char) {
    '\n' <= c <= '\r' || '\U{1c}' <= c <= '\U{1e}' || c == '\U{85}' || c == '\U{2028}' || c == '\U{2029}'
  }

  /** The two tables of the Unicode standard that Python uses, in full. */
  lemma CharactersExactly(c: char)
    ensures IsLineBreak(c) <==> c in "\n\U{0b}\U{0c}\r\U{1c}\U{1d}\U{1e}\U{85}\U{2028}\U{2029}"
    ensures IsSpace(c) <==> c in "\t\n\U{0b}\U{0c}\r\U{1c}\U{1d}\U{1e}\U{1f} \U{85}\U{a0}\U{1680}\U{2000}\U{2001}\U{2002}\U{2003}\U{2004}\U{2005}\U{2006}\U{2007}\U{2008}\U{2009}\U{200a}\U{2028}\U{2029}\U{202f}\U{205f}\U{3000}"
  {}

  function TrimLeft(s: string): string {
    if s != [] && IsSpace(s[0]) then TrimLeft(s[1..]) else s
  }

  function TrimRight(s: string): string {
    if s != [] && IsSpace(s[|s| - 1]) then TrimRight(s[..|s| - 1]) else s
  }

  /** `str.strip()`. */
  function Strip(s: string): string {
    TrimRight(TrimLeft(s))
  }

  predicate Stripped(s: string) {
    s != [] ==> !IsSpace(s[0]) && !IsSpace(s[|s| - 1])
  }

  lemma {:induction false} TrimRightShape(s: string)
    ensures TrimRight(s) <= s && forall k :: |TrimRight(s)| <= k < |s| ==> IsSpace(s[k])
    ensures TrimRight(s) != [] ==> !IsSpace(TrimRight(s)[|TrimRight(s)| - 1])
  {
    if s != [] && IsSpace(s[|s| - 1]) {
      TrimRightShape(s[..|s| - 1]);
    }
  }

  lemma {:induction false} TrimLeftBy(s: string) returns (n: nat)
    ensures n <= |s| && TrimLeft(s) == s[n..]
    ensures (forall k :: 0 <= k < n ==> IsSpace(s[k])) && (n < |s| ==> !IsSpace(s[n]))
  {
    n := 0;
    if s != [] && IsSpace(s[0]) {
      var rest := s[1..];
      var m := TrimLeftBy(rest);
      n := m + 1;
      assert rest[m..] == s[n..];
      forall k | 0 <= k < n ensures IsSpace(s[k]) {
        assert k > 0 ==> s[k] == rest[k - 1];
      }
    }
  }

  lemma TrimLeftShape(s: string)
    ensures |TrimLeft(s)| <= |s| && TrimLeft(s) == s[|s| - |TrimLeft(s)|..]
    ensures forall k :: 0 <= k < |s| - |TrimLeft(s)| ==> IsSpace(s[k])
    ensures TrimLeft(s) != [] ==> !IsSpace(TrimLeft(s)[0])
  {
    var n := TrimLeftBy(s);
    assert |s[n..]| == |s| - n;
  }

  /** Stripping leaves no outer blank, changes nothing that has none, and takes a slice. */
  lemma StripShape(s: string)
    ensures Stripped(Strip(s))
    ensures Stripped(s) ==> Strip(s) == s
    ensures forall c :: c in Strip(s) ==> c in s
  {
    TrimLeftShape(s);
    TrimRightShape(TrimLeft(s));
    forall c | c in Strip(s) ensures c in s {
      assert c in TrimLeft(s);
    }
  }

  /** t is the part of s from i to j, and outside it there are only blanks. */
  ghost predicate Inside(s: string, t: string, i: int, j: int) {
    0 <= i <= j <= |s| && t == s[i..j] && forall k :: 0 <= k < i || j <= k < |s| ==> IsSpace(s[k])
  }

  /** Stripping takes away the outer blanks and nothing else. */
  lemma StripExactly(s: string, t: string)
    ensures t == Strip(s) <==> Stripped(t) && exists i, j :: Inside(s, t, i, j)
  {
    var from, to := StripInside(s);
    StripShape(s);
    if i, j :| Stripped(t) && Inside(s, t, i, j) {
      OneInside(s, t, i, j, Strip(s), from, to);
    }
  }

  lemma StripInside(s: string) returns (from: nat, to: nat)
    ensures Inside(s, Strip(s), from, to)
  {
    TrimLeftShape(s);
    TrimRightShape(TrimLeft(s));
    from := |s| - |TrimLeft(s)|;
    to := from + |Strip(s)|;
    forall k | to <= k < |s| ensures IsSpace(s[k]) {
      assert s[k] == TrimLeft(s)[k - from];
    }
  }

  lemma OneInside(s: string, t: string, i: nat, j: nat, u: string, k: nat, l: nat)
    requires Inside(s, t, i, j) && Inside(s, u, k, l) && Stripped(t) && Stripped(u)
    ensures t == u
  {
    if t != [] {
      assert !IsSpace(s[i]) && !IsSpace(s[j - 1]);
    }
    if u != [] {
      assert !IsSpace(s[k]) && !IsSpace(s[l - 1]);
    }
    assert t != [] && u != [] ==> i == k && j == l;
    assert t == [] ==> forall m :: 0 <= m < |s| ==> IsSpace(s[m]);
  }

  function LowerChar(c: char): char {
    if 'A' <= c <= 'Z' then (c as int - 'A' as int + 'a' as int) as char else c
  }

  /** Lower-casing of ASCII letters, as SQLite's LOWER does it. */
  function Lower(s: string): (r: string)
    ensures |r| == |s|
  {
    seq(|s|, i requires 0 <= i < |s| => LowerChar(s[i]))
  }

  /** What a text in decimal digits stands for. */
  ghost function Value(s: string): int {
    if s == [] then 0 else 10 * Value(s[..|s| - 1]) + (s[|s| - 1] as int - '0' as int)
  }

  /** Decimal text of a counter. */
  function Decimal(n: nat): (s: string)
    ensures s != []
  {
    var digit := ('0' as int + n % 10) as char;
    if n < 10 then [digit] else Decimal(n / 10) + [digit]
  }

  /** A counter's text is its digits: it reads back, and starts with a zero only for 0. */
  lemma {:induction false} DecimalReadsBack(n: nat)
    ensures Value(Decimal(n)) == n && (n > 0 ==> Decimal(n)[0] != '0')
    ensures forall i :: 0 <= i < |Decimal(n)| ==> '0' <= Decimal(n)[i] <= '9'
  {
    if n >= 10 {
      DecimalReadsBack(n / 10);
      var s := Decimal(n);
      assert s[..|s| - 1] == Decimal(n / 10);
    }
  }

  /** Two texts are equal in lower case exactly when they differ at most in the case of ASCII letters. */
  lemma LowerEqualExactly(a: string, b: string)
    ensures Lower(a) == Lower(b) <==>
            |a| == |b| && forall i :: 0 <= i < |a| ==> SameLetter(a[i], b[i])
  {
    if |a| == |b| {
      if Lower(a) == Lower(b) {
        forall i | 0 <= i < |a| ensures SameLetter(a[i], b[i]) {
          assert Lower(a)[i] == Lower(b)[i];
        }
      } else {
        var i :| 0 <= i < |a| && Lower(a)[i] != Lower(b)[i];
        assert !SameLetter(a[i], b[i]);
      }
    }
  }

  ghost predicate SameLetter(x: char, y: char) {
    || x == y
    || ('A' <= x <= 'Z' && y as int - x as int == 32)
    || ('A' <= y <= 'Z' && x as int - y as int == 32)
  }

  /** Different numbers print differently. */
  lemma DecimalInjective(a: nat, b: nat)
    requires Decimal(a) == Decimal(b)
    ensures a == b
  {
    DecimalReadsBack(a);
    DecimalReadsBack(b);
  }
}
