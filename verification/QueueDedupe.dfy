/** The queue repair before the unique index (app/db.py, `_migrate_queue_items`): of the active rows
    that share a station and key, all but the first by (playing before pending, id) are failed. */
module QueueDedupe {
  import opened QueueTable
  import opened RowOrder
  import opened Wrappers

  /** The window's sort column: playing rows first. */
  function Ranks(t: Table): map<int, int> {
    map id | id in t :: if t[id].status == Playing then 0 else 1
  }

  /** The window's partition of a row. */
  function Partition(t: Table, id: int): set<int>
    requires id in t
  {
    set x | x in t && SameKey(t, x, id)
  }

  /** ROW_NUMBER of a row within its partition. */
  function Ordinal(t: Table, id: int): nat
    requires id in t
  {
    1 + |set x | x in Partition(t, id) && Before(Ranks(t), x, id)|
  }

  function Quarantined(row: Row, now: int): Row {
    row.(status := Failed, finished := if row.finished.None? then Some(now) else row.finished)
  }

  function Quarantine(t: Table, now: int): Table {
    map id | id in t :: if t[id].Keyed() && Ordinal(t, id) > 1 then Quarantined(t[id], now) else t[id]
  }

  /** The row a partition keeps. */
  function Keeper(t: Table, id: int): int
    requires id in t && t[id].Keyed()
  {
    assert id in Partition(t, id);
    First(Partition(t, id), Ranks(t))
  }

  /** ROW_NUMBER 1 is the keeper, for every member of the partition. */
  lemma OrdinalOneIsKeeper(t: Table, id: int)
    requires id in t && t[id].Keyed()
    ensures Ordinal(t, id) == 1 <==> id == Keeper(t, id)
  {
    var ahead := set x | x in Partition(t, id) && Before(Ranks(t), x, id);
    var k := Keeper(t, id);
    assert id in Partition(t, id);
    if id == k {
      assert ahead == {};
    } else {
      assert k in ahead;
    }
  }

  lemma SamePartition(t: Table, a: int, b: int)
    requires a in t && b in t && SameKey(t, a, b)
    ensures Partition(t, a) == Partition(t, b) && Keeper(t, a) == Keeper(t, b)
  {}

  /** After the repair the index can be created: no two active rows share a station and key. */
  lemma RepairMakesKeysUnique(t: Table, now: int)
    ensures UniqueActiveKeys(Quarantine(t, now))
  {
    var r := Quarantine(t, now);
    UniqueKeysExactly(r);
    forall a, b | a in r && b in r && SameKey(r, a, b) ensures a == b {
      assert r[a] == t[a] && r[b] == t[b];
      OrdinalOneIsKeeper(t, a);
      OrdinalOneIsKeeper(t, b);
      SamePartition(t, a, b);
    }
  }

  /** Every contested key keeps exactly one row: a playing one if any was playing, the lowest id of
      those; all its rivals, and no other rows, are failed. */
  lemma RepairKeepsTheRightRow(t: Table, now: int, id: int)
    requires id in t
    ensures var r := Quarantine(t, now);
            && id in r
            && (!t[id].Keyed() ==> r[id] == t[id])
            && (t[id].Keyed() ==>
                  var k := Keeper(t, id);
                  && k in t && SameKey(t, k, id) && r[k] == t[k]
                  && (forall x :: x in t && SameKey(t, x, id) && x != k ==>
                        && r[x] == Quarantined(t[x], now) && !r[x].Active()
                        && (t[x].status == Playing ==> t[k].status == Playing && k < x)
                        && (t[k].status == Pending ==> k < x)))
  {
    if t[id].Keyed() {
      var k := Keeper(t, id);
      assert k in Partition(t, id);
      SamePartition(t, k, id);
      OrdinalOneIsKeeper(t, k);
      forall x | x in t && SameKey(t, x, id) && x != k
        ensures Ordinal(t, x) > 1 && Before(Ranks(t), k, x)
      {
        assert x in Partition(t, id);
        SamePartition(t, x, id);
        OrdinalOneIsKeeper(t, x);
      }
    }
  }

  /** An active row of the same station with the same key, more than spaces, that the repair prefers: a
      playing row before a pending one, and otherwise the lower id. */
  ghost predicate Prefers(t: Table, x: int, id: int) {
    && x in t && id in t && Waits(t[x].status) && Waits(t[id].status)
    && t[x].station == t[id].station && t[x].dedupeKey == t[id].dedupeKey
    && (exists i :: 0 <= i < |t[id].dedupeKey| && t[id].dedupeKey[i] != ' ')
    && ((t[x].status == Playing && t[id].status == Pending) || (t[x].status == t[id].status && x < id))
  }

  /** Row by row: a row is failed, and finished now unless it was before, exactly when another one is
      preferred to it. Nothing else changes. */
  lemma RepairExactly(t: Table, now: int)
    ensures var r := Quarantine(t, now);
            && r.Keys == t.Keys
            && forall id :: id in t ==>
                 r[id] == if exists x :: Prefers(t, x, id)
                          then Row(t[id].station, t[id].track, t[id].position, Failed, t[id].started,
                                   if t[id].finished == None then Some(now) else t[id].finished, t[id].dedupeKey)
                          else t[id]
  {
    forall id | id in t
      ensures (t[id].Keyed() && Ordinal(t, id) > 1) <==> exists x :: Prefers(t, x, id)
    {
      var ahead := set x | x in Partition(t, id) && Before(Ranks(t), x, id);
      assert forall x :: x in ahead <==> Prefers(t, x, id);
      if ahead != {} {
        assert Pick(ahead) in ahead;
      }
    }
  }

  /** A table that already satisfies the index is left alone, so the repair runs once. */
  lemma RepairIsIdempotent(t: Table, now: int, later: int)
    ensures UniqueActiveKeys(t) ==> Quarantine(t, now) == t
    ensures Quarantine(Quarantine(t, now), later) == Quarantine(t, now)
  {
    UniqueNeedsNoRepair(t, now);
    RepairMakesKeysUnique(t, now);
    UniqueNeedsNoRepair(Quarantine(t, now), later);
  }

  lemma UniqueNeedsNoRepair(t: Table, now: int)
    ensures UniqueActiveKeys(t) ==> Quarantine(t, now) == t
  {
    UniqueKeysExactly(t);
  }
}
