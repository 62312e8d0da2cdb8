/** The listener probe of public status (app/api/public.py, `_probe_icecast_origin`): a cache of
    counters per station and URL, with hysteresis. Times are milliseconds of a monotonic clock. */
module OriginProbe {
  import opened Wrappers
  import PyText

  const PROBE_TTL := 5000
  const SUCCESS_THRESHOLD := 2
  const FAILURE_THRESHOLD := 2

  datatype Key = Key(station: int, url: string)

  datatype Entry = Entry(checkedAt: int, confirmed: bool, successes: nat, failures: nat)

  type Cache = map<Key, Entry>

  /** A probe that came back: when it was started, and whether audio answered. */
  datatype Probe = Probe(key: Key, startedAt: int, ok: bool)

  function Previous(cache: Cache, key: Key): Entry {
    if key in cache then cache[key] else Entry(0, false, 0, 0)
  }

  function After(cache: Cache, p: Probe): Cache {
    var previous := Previous(cache, p.key);
    var entry :=
      if p.ok then
        Entry(p.startedAt, previous.confirmed || previous.successes + 1 >= SUCCESS_THRESHOLD, previous.successes + 1, 0)
      else
        Entry(p.startedAt, previous.confirmed && previous.failures + 1 < FAILURE_THRESHOLD, 0, previous.failures + 1);
    cache[p.key := entry]
  }

  function Run(probes: seq<Probe>): Cache {
    if probes == [] then map[] else After(Run(probes[..|probes| - 1]), probes[|probes| - 1])
  }

  /** The answers one key has had, oldest first. */
  function History(probes: seq<Probe>, key: Key): seq<bool> {
    if probes == [] then []
    else
      var n := |probes| - 1;
      History(probes[..n], key) + if probes[n].key == key then [probes[n].ok] else []
  }

  // ---- The closed form ----------------------------------------------------------------------

  predicate TwoSuccesses(h: seq<bool>, i: int) {
    0 <= i && i + 1 < |h| && h[i] && h[i + 1]
  }

  predicate TwoFailures(h: seq<bool>, i: int) {
    0 <= i && i + 1 < |h| && !h[i] && !h[i + 1]
  }

  /** Two successes in a row, and never two failures in a row after them. */
  ghost predicate Steady(h: seq<bool>) {
    exists i :: TwoSuccesses(h, i) && forall j :: i + 1 < j ==> !TwoFailures(h, j)
  }

  predicate EndsWith(h: seq<bool>, ok: bool) {
    h != [] && h[|h| - 1] == ok
  }

  lemma SteadyAfterSuccess(h: seq<bool>)
    ensures Steady(h + [true]) <==> Steady(h) || EndsWith(h, true)
  {
    var g := h + [true];
    assert forall j :: TwoFailures(g, j) <==> TwoFailures(h, j);
    assert forall j :: 0 <= j < |h| - 1 ==> (TwoSuccesses(g, j) <==> TwoSuccesses(h, j));
    if EndsWith(h, true) {
      assert TwoSuccesses(g, |h| - 1);
    }
    if Steady(h) {
      var i :| TwoSuccesses(h, i) && forall j :: i + 1 < j ==> !TwoFailures(h, j);
      assert TwoSuccesses(g, i);
    }
    if Steady(g) {
      var i :| TwoSuccesses(g, i) && forall j :: i + 1 < j ==> !TwoFailures(g, j);
      assert i < |h| - 1 ==> TwoSuccesses(h, i);
    }
  }

  lemma SteadyAfterFailure(h: seq<bool>)
    ensures Steady(h + [false]) <==> Steady(h) && EndsWith(h, true)
  {
    var g := h + [false];
    assert forall j :: 0 <= j < |h| - 1 ==> (TwoFailures(g, j) <==> TwoFailures(h, j));
    assert forall j :: TwoSuccesses(g, j) <==> TwoSuccesses(h, j);
    if Steady(h) && EndsWith(h, true) {
      var i :| TwoSuccesses(h, i) && forall j :: i + 1 < j ==> !TwoFailures(h, j);
      assert TwoSuccesses(g, i);
    }
    if Steady(g) {
      var i :| TwoSuccesses(g, i) && forall j :: i + 1 < j ==> !TwoFailures(g, j);
      assert TwoSuccesses(h, i);
      assert !TwoFailures(g, |h| - 1);
      forall j | i + 1 < j ensures !TwoFailures(h, j) {
        assert TwoFailures(h, j) ==> TwoFailures(g, j);
      }
    }
  }

  /** What the entry of a key says about its history. */
  ghost predicate Sums(e: Entry, h: seq<bool>) {
    && (e.confirmed <==> Steady(h))
    && (e.successes >= 1 <==> EndsWith(h, true))
    && (e.failures >= 1 <==> EndsWith(h, false))
  }

  /** For every sequence of finished probes, in any interleaving of keys: a key is confirmed exactly
      when its own answers are steady. */
  lemma {:induction false} ConfirmedExactly(probes: seq<Probe>, key: Key)
    ensures Sums(Previous(Run(probes), key), History(probes, key))
    ensures key in Run(probes) <==> History(probes, key) != []
  {
    if probes != [] {
      var n := |probes| - 1;
      ConfirmedExactly(probes[..n], key);
      var h := History(probes[..n], key);
      if probes[n].key == key {
        assert History(probes, key) == h + [probes[n].ok];
        SteadyAfterSuccess(h);
        SteadyAfterFailure(h);
      } else {
        assert History(probes, key) == h;
      }
    }
  }

  /** One answer never changes the verdict of a settled key: a confirmed key that last answered, or an
      unconfirmed one that last failed, needs two answers to change. */
  lemma OneAnswerDoesNotFlip(probes: seq<Probe>, p: Probe)
    requires EndsWith(History(probes, p.key), Previous(Run(probes), p.key).confirmed)
    ensures Previous(Run(probes + [p]), p.key).confirmed == Previous(Run(probes), p.key).confirmed
  {
    var longer := probes + [p];
    assert longer[..|longer| - 1] == probes;
    ConfirmedExactly(probes, p.key);
    ConfirmedExactly(longer, p.key);
    SteadyAfterSuccess(History(probes, p.key));
    SteadyAfterFailure(History(probes, p.key));
    assert History(longer, p.key) == History(probes, p.key) + [p.ok];
  }

  // ---- How often a key is probed ------------------------------------------------------------

  /** The verdict in the cache is still served. */
  predicate Fresh(cache: Cache, key: Key, now: int) {
    key in cache && now - cache[key].checkedAt < PROBE_TTL
  }

  /** The last answer recorded for the key was asked for less than 5 s before. */
  ghost predicate Recent(finished: seq<Probe>, key: Key, now: int) {
    exists i :: 0 <= i < |finished| && finished[i].key == key && now - finished[i].startedAt < 5000
                && forall j :: i < j < |finished| ==> finished[j].key != key
  }

  lemma {:induction false} CheckedLast(finished: seq<Probe>, key: Key)
    ensures if key in Run(finished)
            then exists i :: 0 <= i < |finished| && finished[i].key == key
                             && Run(finished)[key].checkedAt == finished[i].startedAt
                             && forall j :: i < j < |finished| ==> finished[j].key != key
            else forall i :: 0 <= i < |finished| ==> finished[i].key != key
  {
    if finished != [] {
      var n := |finished| - 1;
      CheckedLast(finished[..n], key);
      if finished[n].key != key && key in Run(finished) {
        var front := finished[..n];
        var i :| 0 <= i < n && front[i].key == key && Run(front)[key].checkedAt == front[i].startedAt
                 && forall j :: i < j < n ==> front[j].key != key;
        assert forall j :: i < j < |finished| ==> finished[j].key != key;
        assert finished[i].key == key;
      }
    }
  }

  lemma FreshExactly(finished: seq<Probe>, key: Key, now: int)
    ensures Fresh(Run(finished), key, now) <==> Recent(finished, key, now)
  {
    CheckedLast(finished, key);
  }

  /** A whole request: asked at `at`, and the answer its probe would get. */
  datatype Ask = Ask(key: Key, at: int, ok: bool)

  function Served(finished: seq<Probe>, a: Ask): seq<Probe> {
    if Fresh(Run(finished), a.key, a.at) then finished else finished + [Probe(a.key, a.at, a.ok)]
  }

  /** The probes of a run of requests none of which overlaps another. */
  function ServedAll(asks: seq<Ask>): seq<Probe> {
    if asks == [] then [] else Served(ServedAll(asks[..|asks| - 1]), asks[|asks| - 1])
  }

  /** Such a request is answered from the cache, or by one probe more, exactly by the last answer's age. */
  lemma ServedExactly(asks: seq<Ask>, a: Ask)
    ensures ServedAll(asks + [a]) == ServedAll(asks)
              + if Recent(ServedAll(asks), a.key, a.at) then [] else [Probe(a.key, a.at, a.ok)]
  {
    assert (asks + [a])[..|asks|] == asks;
    FreshExactly(ServedAll(asks), a.key, a.at);
  }

  predicate Clocked(asks: seq<Ask>) {
    forall i, j :: 0 <= i < j < |asks| ==> asks[i].at <= asks[j].at
  }

  /** Every probe is recorded in the cache or older than what is. */
  predicate CacheNewest(finished: seq<Probe>) {
    forall i :: 0 <= i < |finished| ==>
      finished[i].key in Run(finished) && finished[i].startedAt <= Run(finished)[finished[i].key].checkedAt
  }

  predicate SpacedByTtl(finished: seq<Probe>) {
    forall i, j :: 0 <= i < j < |finished| && finished[i].key == finished[j].key ==>
      finished[j].startedAt - finished[i].startedAt >= 5000
  }

  lemma ServedKeepsSpacing(finished: seq<Probe>, a: Ask)
    requires CacheNewest(finished) && SpacedByTtl(finished)
    requires forall k :: k in Run(finished) ==> Run(finished)[k].checkedAt <= a.at
    ensures var f := Served(finished, a);
            && CacheNewest(f) && SpacedByTtl(f)
            && forall k :: k in Run(f) ==> Run(f)[k].checkedAt <= a.at
  {
    var p := Probe(a.key, a.at, a.ok);
    assert (finished + [p])[..|finished + [p]| - 1] == finished;
    assert Run(finished + [p]) == After(Run(finished), p);
  }

  /** Requests that do not overlap probe one key at least the time to live apart. */
  lemma {:induction false} SerialProbesSpaced(asks: seq<Ask>)
    requires Clocked(asks)
    ensures CacheNewest(ServedAll(asks)) && SpacedByTtl(ServedAll(asks))
    ensures asks != [] ==> forall k :: k in Run(ServedAll(asks)) ==> Run(ServedAll(asks))[k].checkedAt <= asks[|asks| - 1].at
    ensures asks == [] ==> Run(ServedAll(asks)) == map[]
  {
    if asks != [] {
      var n := |asks| - 1;
      SerialProbesSpaced(asks[..n]);
      assert n > 0 ==> asks[..n][n - 1].at <= asks[n].at;
      ServedKeepsSpacing(ServedAll(asks[..n]), asks[n]);
    }
  }

  /** The lock is free during a probe: a second request within the time to live probes as well exactly
      when it asks before the first has recorded its answer. */
  lemma OverlapProbesTwice(finished: seq<Probe>, key: Key, first: int, second: int, ok: bool)
    requires !Recent(finished, key, first) && first <= second < first + 5000
    ensures !Fresh(Run(finished), key, second)
    ensures Fresh(Run(finished + [Probe(key, first, ok)]), key, second)
  {
    var longer := finished + [Probe(key, first, ok)];
    assert longer[..|longer| - 1] == finished;
    FreshExactly(finished, key, first);
  }

  // ---- The shared cache ---------------------------------------------------------------------

  class Prober {
    var cache: Cache
    ghost var finished: seq<Probe>

    ghost predicate Valid()
      reads this
    {
      cache == Run(finished)
    }

    constructor ()
      ensures Valid() && finished == []
    {
      cache, finished := map[], [];
    }

    /** The first locked section: a verdict not older than the time to live is served as it is. */
    method Cached(key: Key, now: int) returns (verdict: Option<bool>)
      requires Valid()
      ensures verdict.Some? <==> Recent(finished, key, now)
      ensures verdict.Some? <==> Fresh(Run(finished), key, now)
      ensures verdict.Some? ==> (verdict.value <==> Steady(History(finished, key)))
    {
      ConfirmedExactly(finished, key);
      FreshExactly(finished, key, now);
      if key in cache && now - cache[key].checkedAt < PROBE_TTL {
        return Some(cache[key].confirmed);
      }
      return None;
    }

    /** The second locked section, after the probe; other probes may have finished in between. */
    method Finish(p: Probe) returns (confirmed: bool)
      requires Valid()
      modifies this
      ensures Valid() && finished == old(finished) + [p]
      ensures confirmed <==> Steady(History(finished, p.key))
      ensures forall k :: k != p.key ==> (k in cache <==> k in old(cache)) && (k in cache ==> cache[k] == old(cache)[k])
    {
      var previous := Previous(cache, p.key);
      var successes, failures := 0, 0;
      if p.ok {
        successes := previous.successes + 1;
        confirmed := previous.confirmed || successes >= SUCCESS_THRESHOLD;
      } else {
        failures := previous.failures + 1;
        confirmed := previous.confirmed && failures < FAILURE_THRESHOLD;
      }
      cache := cache[p.key := Entry(p.startedAt, confirmed, successes, failures)];
      finished := finished + [p];
      assert finished[..|finished| - 1] == old(finished);
      ConfirmedExactly(finished, p.key);
    }

    /** Two requests for one key. The second one asks before the first has recorded its answer, or after
        it. Where the first has to probe and the second comes within the time to live, the second probes
        exactly in the first case. */
    method TwoRequests(key: Key, first: int, ok: bool, second: int, again: bool, overlap: bool)
      requires Valid()
      modifies this
      ensures Valid()
      ensures !overlap ==> finished == Served(Served(old(finished), Ask(key, first, ok)), Ask(key, second, again))
      ensures !Recent(old(finished), key, first) && first <= second < first + 5000 ==>
                finished == old(finished) + [Probe(key, first, ok)] + if overlap then [Probe(key, second, again)] else []
    {
      if !Recent(finished, key, first) && first <= second < first + 5000 {
        OverlapProbesTwice(finished, key, first, second, ok);
      }
      var asked := Cached(key, first);
      var askedAgain: Option<bool> := None;
      if overlap {
        askedAgain := Cached(key, second);
      }
      if asked == None {
        var _ := Finish(Probe(key, first, ok));
      }
      if !overlap {
        askedAgain := Cached(key, second);
      }
      if askedAgain == None {
        var _ := Finish(Probe(key, second, again));
      }
    }

    /** A whole request that no other overlaps. Without a listener URL there is no verdict. */
    method ProbeOrigin(station: int, url: Option<string>, now: int, ok: bool) returns (verdict: Option<bool>)
      requires Valid()
      modifies this
      ensures Valid() && (verdict.None? <==> url == None || url == Some(""))
      ensures verdict.Some? ==> (verdict.value <==> Steady(History(finished, Key(station, PyText.Lower(url.value)))))
      ensures finished == if verdict.None? then old(finished)
                          else Served(old(finished), Ask(Key(station, PyText.Lower(url.value)), now, ok))
      ensures verdict.Some? ==>
                var key := Key(station, PyText.Lower(url.value));
                finished == old(finished) + if Recent(old(finished), key, now) then [] else [Probe(key, now, ok)]
    {
      if url == None || url == Some("") {
        return None;
      }
      var key := Key(station, PyText.Lower(url.value));
      verdict := Cached(key, now);
      if verdict == None {
        var confirmed := Finish(Probe(key, now, ok));
        verdict := Some(confirmed);
      }
    }
  }
}
