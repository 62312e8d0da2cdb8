/** Rows of queue_items, ad_break_items and schedule_items, by id. */
module QueueTable {
  import opened Wrappers

  datatype Status = Pending | Playing | Done | Failed

  datatype Row = Row(station: int, track: int, position: int, status: Status,
                     started: Option<int>, finished: Option<int>, dedupeKey: string)
  {
    predicate Active() { status == Pending || status == Playing }

    /** The index condition: an active row with a key that is not blank under SQL's TRIM. */
    predicate Keyed() { Active() && exists i :: 0 <= i < |dedupeKey| && dedupeKey[i] != ' ' }
  }

  type Table = map<int, Row>

  predicate SameKey(t: Table, a: int, b: int)
    requires a in t && b in t
  {
    t[a].Keyed() && t[b].Keyed() && t[a].station == t[b].station && t[a].dedupeKey == t[b].dedupeKey
  }

  /** What the partial unique index on (station_id, dedupe_key) demands of the table: no two active rows
      of a station carry one key that is more than spaces. */
  ghost predicate UniqueActiveKeys(t: Table) {
    forall a, b :: (a in t && b in t && a != b && Waits(t[a].status) && Waits(t[b].status)
                    && t[a].station == t[b].station && t[a].dedupeKey == t[b].dedupeKey) ==>
      forall i :: 0 <= i < |t[a].dedupeKey| ==> t[a].dedupeKey[i] == ' '
  }

  ghost predicate Waits(s: Status) { s in {Pending, Playing} }

  /** Sharing a key is what the index forbids. */
  lemma UniqueKeysExactly(t: Table)
    ensures UniqueActiveKeys(t) <==> forall a, b :: a in t && b in t && SameKey(t, a, b) ==> a == b
  {
    if UniqueActiveKeys(t) {
      forall a, b | a in t && b in t && SameKey(t, a, b) ensures a == b {
        assert Waits(t[a].status) && Waits(t[b].status);
      }
    } else {
      var a, b :| a in t && b in t && a != b && Waits(t[a].status) && Waits(t[b].status)
        && t[a].station == t[b].station && t[a].dedupeKey == t[b].dedupeKey
        && !forall i :: 0 <= i < |t[a].dedupeKey| ==> t[a].dedupeKey[i] == ' ';
      assert SameKey(t, a, b);
    }
  }
}
