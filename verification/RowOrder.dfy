/** Reading table rows "ORDER BY position ASC, id ASC". A table is a map from row id to row;
    `pos` gives the sort column, so a constant `pos` reads in id order. */
module RowOrder {

  ghost function Pick<T>(s: set<T>): (x: T)
    requires s != {}
    ensures x in s
  {
    var x :| x in s; x
  }

  predicate Before(pos: map<int, int>, a: int, b: int)
    requires a in pos && b in pos
  {
    pos[a] < pos[b] || (pos[a] == pos[b] && a < b)
  }

  predicate IsFirst(ids: set<int>, pos: map<int, int>, m: int)
    requires ids <= pos.Keys
  {
    m in ids && forall x :: x in ids && x != m ==> Before(pos, m, x)
  }

  lemma {:induction false} FirstExists(ids: set<int>, pos: map<int, int>)
    requires ids != {} && ids <= pos.Keys
    ensures exists m :: IsFirst(ids, pos, m)
    decreases |ids|
  {
    var x := Pick(ids);
    if ids == {x} {
      assert IsFirst(ids, pos, x);
    } else {
      var rest := ids - {x};
      assert rest + {x} == ids;
      FirstExists(rest, pos);
      var m :| IsFirst(rest, pos, m);
      assert IsFirst(ids, pos, if Before(pos, x, m) then x else m);
    }
  }

  function First(ids: set<int>, pos: map<int, int>): (m: int)
    requires ids != {} && ids <= pos.Keys
    ensures IsFirst(ids, pos, m)
  {
    FirstExists(ids, pos);
    var m :| IsFirst(ids, pos, m);
    m
  }

  predicate InOrder(s: seq<int>, pos: map<int, int>)
    requires forall x :: x in s ==> x in pos
  {
    s != [] ==> (forall x :: x in s[1..] ==> Before(pos, s[0], x)) && InOrder(s[1..], pos)
  }

  lemma {:induction false} InOrderAt(s: seq<int>, pos: map<int, int>, i: nat, j: nat)
    requires forall x :: x in s ==> x in pos
    requires InOrder(s, pos) && i < j < |s|
    ensures s[i] in s && s[j] in s && Before(pos, s[i], s[j])
  {
    if i > 0 {
      InOrderAt(s[1..], pos, i - 1, j - 1);
    } else {
      assert s[1..][j - 1] in s[1..];
    }
  }

  lemma InOrderDistinct(s: seq<int>, pos: map<int, int>)
    requires forall x :: x in s ==> x in pos
    requires InOrder(s, pos)
    ensures forall i, j :: 0 <= i < j < |s| ==> s[i] != s[j]
  {
    forall i, j | 0 <= i < j < |s| ensures s[i] != s[j] {
      InOrderAt(s, pos, i, j);
    }
  }

  lemma {:induction false} InOrderAppend(s: seq<int>, pos: map<int, int>, x: int)
    requires x in pos && (forall y :: y in s ==> y in pos && Before(pos, y, x))
    requires InOrder(s, pos)
    ensures InOrder(s + [x], pos)
  {
    if s != [] {
      InOrderAppend(s[1..], pos, x);
      assert (s + [x])[1..] == s[1..] + [x];
    }
  }

  /** The ids in query order: each exactly once, every earlier one before every later one. */
  function Ordered(ids: set<int>, pos: map<int, int>): (s: seq<int>)
    requires ids <= pos.Keys
    ensures |s| == |ids|
    ensures forall x :: x in s <==> x in ids
    ensures InOrder(s, pos)
    decreases |ids|
  {
    if ids == {} then []
    else
      var m := First(ids, pos);
      [m] + Ordered(ids - {m}, pos)
  }

  /** An enumeration in order is unique, so `Ordered` is the only answer the query can give. */
  lemma {:induction false} OrderedUnique(ids: set<int>, pos: map<int, int>, s: seq<int>)
    requires ids <= pos.Keys
    requires forall x :: x in s <==> x in ids
    requires InOrder(s, pos)
    ensures s == Ordered(ids, pos)
    decreases |ids|
  {
    if s == [] {
      assert forall x :: x in ids ==> x in s;
      assert ids == {};
    } else {
      var head := s[0];
      assert head in s;
      assert head in ids;
      var m, rest := First(ids, pos), s[1..];
      assert s[0] == m by {
        assert m in s;
        assert m == s[0] || m in rest;
      }
      forall x ensures x in rest <==> x in ids - {m} {
        assert x in rest ==> x in s && Before(pos, m, x);
        assert x in s <==> x == m || x in rest;
      }
      OrderedUnique(ids - {m}, pos, rest);
    }
  }
}
