/**
 * One poll cycle of PyPIStreamSource.generate_events (core/pathway_stream.py).
 * The registry's answers are an input: `fetched[k]` is what
 * `fetch_latest_version(packages[k])` returned (None on a failed request).
 * The cycle updates the version cache, broadcasts `package_update` only for a
 * version that changed, and yields one event for every package fetched
 * successfully, changed or not.
 */
module PollSource {
  import opened Wrappers
  import opened Dicts
  import opened Broadcaster

  /** `{'package_name', 'latest_version', 'timestamp'}` as yielded to Pathway. */
  datatype PyPIEvent = PyPIEvent(packageName: string, latestVersion: string, timestamp: int)

  /** The state a cycle builds up: the cache, the `package_update` payloads
      broadcast, and the events yielded. */
  datatype CycleState = CycleState(cache: map<string, string>, updates: seq<EventData>, events: seq<PyPIEvent>)

  /** `if latest_version:` — a fetch counts only when it returned a non-empty string. */
  predicate FetchedOk(f: Option<string>) {
    f.Some? && f.value != ""
  }

  function Lookup(cache: map<string, string>, p: string): Option<string> {
    if p in cache then Some(cache[p]) else None
  }

  /** The `package_update` payload for a change from `cached` to `latest`. */
  function UpdateData(p: string, cached: Option<string>, latest: string): EventData {
    var known := cached.Some? && cached.value != "";
    PackageUpdate(
      p,
      if known then cached.value else "",
      latest,
      if known then cached.value + " \U{2192} " + latest else latest + " (first fetch)",
      cached.None?)
  }

  /** The body of the per-package loop. */
  function Step(st: CycleState, p: string, f: Option<string>, now: int): CycleState {
    if FetchedOk(f) then
      var latest := f.value;
      var cached := Lookup(st.cache, p);
      if cached != Some(latest) then
        CycleState(st.cache[p := latest], st.updates + [UpdateData(p, cached, latest)],
                   st.events + [PyPIEvent(p, latest, now)])
      else
        CycleState(st.cache, st.updates, st.events + [PyPIEvent(p, latest, now)])
    else st
  }

  /** The per-package loop run over `ps` with answers `fs`, from `cache`. */
  function Cycle(ps: seq<string>, fs: seq<Option<string>>, cache: map<string, string>, now: int): CycleState
    requires |ps| == |fs|
    decreases |ps|
  {
    if ps == [] then CycleState(cache, [], [])
    else
      var n := |ps| - 1;
      Step(Cycle(ps[..n], fs[..n], cache, now), ps[n], fs[n], now)
  }

  /** The packages whose fetch succeeded. */
  function FetchedSet(ps: seq<string>, fs: seq<Option<string>>): set<string>
    requires |ps| == |fs|
  {
    set k | 0 <= k < |ps| && FetchedOk(fs[k]) :: ps[k]
  }

  /** Did the package at index `k` get a new or changed version? */
  predicate Changed(ps: seq<string>, fs: seq<Option<string>>, cache: map<string, string>, k: nat)
    requires |ps| == |fs| && k < |ps|
  {
    FetchedOk(fs[k]) && Lookup(cache, ps[k]) != Some(fs[k].value)
  }

  /** The last package's effect on the cache. */
  lemma CycleCacheLast(ps: seq<string>, fs: seq<Option<string>>, cache: map<string, string>, now: int)
    requires |ps| == |fs| && ps != []
    ensures var n := |ps| - 1;
      var prev := Cycle(ps[..n], fs[..n], cache, now).cache;
      Cycle(ps, fs, cache, now).cache == if FetchedOk(fs[n]) then prev[ps[n] := fs[n].value] else prev
  {
    var n := |ps| - 1;
    var prev := Cycle(ps[..n], fs[..n], cache, now).cache;
    if FetchedOk(fs[n]) && Lookup(prev, ps[n]) == Some(fs[n].value) {
      assert prev[ps[n] := fs[n].value] == prev;
    }
  }

  /** Each successful fetch is in the cache afterwards. */
  lemma {:induction false} CycleCacheFetched(ps: seq<string>, fs: seq<Option<string>>, cache: map<string, string>, now: int)
    requires |ps| == |fs| && NoDup(ps)
    ensures var c := Cycle(ps, fs, cache, now).cache;
      forall k :: 0 <= k < |ps| && FetchedOk(fs[k]) ==> ps[k] in c && c[ps[k]] == fs[k].value
    decreases |ps|
  {
    if ps != [] {
      var n := |ps| - 1;
      NoDupPrefix(ps, n);
      CycleCacheFetched(ps[..n], fs[..n], cache, now);
      CycleCacheLast(ps, fs, cache, now);
      FetchedStep(ps, fs, Cycle(ps[..n], fs[..n], cache, now).cache, Cycle(ps, fs, cache, now).cache);
    }
  }

  /** The inductive step of `CycleCacheFetched`, on plain maps. */
  lemma FetchedStep(ps: seq<string>, fs: seq<Option<string>>, prev: map<string, string>, c: map<string, string>)
    requires |ps| == |fs| && ps != [] && NoDup(ps)
    requires var n := |ps| - 1;
      forall k :: 0 <= k < n && FetchedOk(fs[..n][k]) ==> ps[..n][k] in prev && prev[ps[..n][k]] == fs[..n][k].value
    requires var n := |ps| - 1; c == if FetchedOk(fs[n]) then prev[ps[n] := fs[n].value] else prev
    ensures forall k :: 0 <= k < |ps| && FetchedOk(fs[k]) ==> ps[k] in c && c[ps[k]] == fs[k].value
  {
    var n := |ps| - 1;
    forall k | 0 <= k < n && FetchedOk(fs[k])
      ensures ps[k] in c && c[ps[k]] == fs[k].value
    {
      assert ps[..n][k] == ps[k] && fs[..n][k] == fs[k];
      assert ps[k] != ps[n];
    }
  }

  /** Packages not fetched successfully keep their cache entry. */
  lemma {:induction false} CycleCacheOthers(ps: seq<string>, fs: seq<Option<string>>, cache: map<string, string>, now: int)
    requires |ps| == |fs|
    ensures forall p :: p !in FetchedSet(ps, fs) ==> Lookup(Cycle(ps, fs, cache, now).cache, p) == Lookup(cache, p)
    decreases |ps|
  {
    if ps != [] {
      var n := |ps| - 1;
      CycleCacheOthers(ps[..n], fs[..n], cache, now);
      CycleCacheLast(ps, fs, cache, now);
      FetchedSetPrefix(ps, fs, n);
    }
  }

  /** A prefix fetches no package the whole sequence does not. */
  lemma FetchedSetPrefix(ps: seq<string>, fs: seq<Option<string>>, n: nat)
    requires |ps| == |fs| && n < |ps|
    ensures FetchedSet(ps[..n], fs[..n]) <= FetchedSet(ps, fs)
    ensures FetchedOk(fs[n]) ==> ps[n] in FetchedSet(ps, fs)
  {
    forall p | p in FetchedSet(ps[..n], fs[..n]) ensures p in FetchedSet(ps, fs) {
      var k :| 0 <= k < n && FetchedOk(fs[..n][k]) && ps[..n][k] == p;
      assert ps[k] == p && FetchedOk(fs[k]);
    }
  }

  /** After a cycle the cache holds the fetched version of every package
      fetched successfully; every other entry is untouched. */
  lemma CacheAfterCycle(ps: seq<string>, fs: seq<Option<string>>, cache: map<string, string>, now: int)
    requires |ps| == |fs| && NoDup(ps)
    ensures forall k :: 0 <= k < |ps| && FetchedOk(fs[k]) ==>
      Lookup(Cycle(ps, fs, cache, now).cache, ps[k]) == Some(fs[k].value)
    ensures forall p :: p !in FetchedSet(ps, fs) ==>
      Lookup(Cycle(ps, fs, cache, now).cache, p) == Lookup(cache, p)
  {
    CycleCacheFetched(ps, fs, cache, now);
    CycleCacheOthers(ps, fs, cache, now);
  }

  /** Step's effect on the broadcast payloads. */
  lemma StepUpdates(st: CycleState, p: string, f: Option<string>, now: int)
    ensures Step(st, p, f, now).updates == st.updates +
      (if FetchedOk(f) && Lookup(st.cache, p) != Some(f.value) then [UpdateData(p, Lookup(st.cache, p), f.value)] else [])
  {
  }

  /** Before package `ps[n]` is visited its cache entry is still the original one. */
  lemma LookupBeforeVisit(ps: seq<string>, fs: seq<Option<string>>, cache: map<string, string>, now: int, n: nat)
    requires |ps| == |fs| && NoDup(ps) && n < |ps|
    ensures Lookup(Cycle(ps[..n], fs[..n], cache, now).cache, ps[n]) == Lookup(cache, ps[n])
  {
    CycleCacheOthers(ps[..n], fs[..n], cache, now);
    forall k | 0 <= k < n ensures ps[..n][k] != ps[n] { assert ps[k] != ps[n]; }
    assert ps[n] !in FetchedSet(ps[..n], fs[..n]);
  }

  /** The payload broadcast for index `k` (meaningful when `Changed`). */
  function PayloadAt(ps: seq<string>, fs: seq<Option<string>>, cache: map<string, string>, k: nat): EventData
    requires |ps| == |fs| && k < |ps| && fs[k].Some?
  {
    UpdateData(ps[k], Lookup(cache, ps[k]), fs[k].value)
  }

  lemma CycleUpdatesLast(ps: seq<string>, fs: seq<Option<string>>, cache: map<string, string>, now: int)
    requires |ps| == |fs| && NoDup(ps) && ps != []
    ensures var n := |ps| - 1;
      Cycle(ps, fs, cache, now).updates == Cycle(ps[..n], fs[..n], cache, now).updates +
        (if Changed(ps, fs, cache, n) then [PayloadAt(ps, fs, cache, n)] else [])
  {
    var n := |ps| - 1;
    LookupBeforeVisit(ps, fs, cache, now, n);
    StepUpdates(Cycle(ps[..n], fs[..n], cache, now), ps[n], fs[n], now);
  }

  lemma {:induction false} CycleUpdatesSound(ps: seq<string>, fs: seq<Option<string>>, cache: map<string, string>, now: int)
    requires |ps| == |fs| && NoDup(ps)
    ensures forall d :: d in Cycle(ps, fs, cache, now).updates ==>
      exists k :: 0 <= k < |ps| && Changed(ps, fs, cache, k) && d == PayloadAt(ps, fs, cache, k)
    decreases |ps|
  {
    if ps != [] {
      var n := |ps| - 1;
      CycleUpdatesSound(ps[..n], fs[..n], cache, now);
      CycleUpdatesLast(ps, fs, cache, now);
      var prev := Cycle(ps[..n], fs[..n], cache, now).updates;
      forall d | d in Cycle(ps, fs, cache, now).updates
        ensures exists k :: 0 <= k < |ps| && Changed(ps, fs, cache, k) && d == PayloadAt(ps, fs, cache, k)
      {
        if d in prev {
          var k :| 0 <= k < n && Changed(ps[..n], fs[..n], cache, k) && d == PayloadAt(ps[..n], fs[..n], cache, k);
          assert Changed(ps, fs, cache, k) && d == PayloadAt(ps, fs, cache, k);
        } else {
          assert Changed(ps, fs, cache, n) && d == PayloadAt(ps, fs, cache, n);
        }
      }
    }
  }

  /** A changed package's payload is among the cycle's broadcasts. */
  lemma {:induction false} CycleUpdateAt(ps: seq<string>, fs: seq<Option<string>>, cache: map<string, string>, now: int, k: nat)
    requires |ps| == |fs| && NoDup(ps) && k < |ps| && Changed(ps, fs, cache, k)
    ensures PayloadAt(ps, fs, cache, k) in Cycle(ps, fs, cache, now).updates
    decreases |ps|
  {
    var n := |ps| - 1;
    CycleUpdatesLast(ps, fs, cache, now);
    if k < n {
      var ps', fs' := ps[..n], fs[..n];
      NoDupPrefix(ps, n);
      assert ps'[k] == ps[k] && fs'[k] == fs[k];
      CycleUpdateAt(ps', fs', cache, now, k);
    }
    UpdateAtStep(ps, fs, cache, k, Cycle(ps[..n], fs[..n], cache, now).updates, Cycle(ps, fs, cache, now).updates);
  }

  /** The inductive step of `CycleUpdateAt`, on plain sequences. */
  lemma UpdateAtStep(ps: seq<string>, fs: seq<Option<string>>, cache: map<string, string>, k: nat,
                     prev: seq<EventData>, updates: seq<EventData>)
    requires |ps| == |fs| && k < |ps| && Changed(ps, fs, cache, k)
    requires var n := |ps| - 1;
      updates == prev + (if Changed(ps, fs, cache, n) then [PayloadAt(ps, fs, cache, n)] else [])
    requires var n := |ps| - 1; k < n ==> PayloadAt(ps[..n], fs[..n], cache, k) in prev
    ensures PayloadAt(ps, fs, cache, k) in updates
  {
    var n := |ps| - 1;
    if k < n {
      assert ps[..n][k] == ps[k] && fs[..n][k] == fs[k];
      assert PayloadAt(ps[..n], fs[..n], cache, k) == PayloadAt(ps, fs, cache, k);
    }
  }

  lemma CycleUpdatesComplete(ps: seq<string>, fs: seq<Option<string>>, cache: map<string, string>, now: int)
    requires |ps| == |fs| && NoDup(ps)
    ensures forall k :: 0 <= k < |ps| && Changed(ps, fs, cache, k) ==>
      PayloadAt(ps, fs, cache, k) in Cycle(ps, fs, cache, now).updates
  {
    forall k | 0 <= k < |ps| && Changed(ps, fs, cache, k)
      ensures PayloadAt(ps, fs, cache, k) in Cycle(ps, fs, cache, now).updates
    {
      CycleUpdateAt(ps, fs, cache, now, k);
    }
  }

  /** `package_update` is broadcast exactly for the packages whose fetched
      version differs from the cached one. */
  lemma UpdatedIffChanged(ps: seq<string>, fs: seq<Option<string>>, cache: map<string, string>, now: int, k: nat)
    requires |ps| == |fs| && NoDup(ps) && k < |ps|
    ensures Changed(ps, fs, cache, k) <==> ps[k] in UpdatedNames(Cycle(ps, fs, cache, now).updates)
  {
    CycleUpdatesSound(ps, fs, cache, now);
    if Changed(ps, fs, cache, k) {
      CycleUpdateAt(ps, fs, cache, now, k);
    }
    NamedOnlyChanged(ps, fs, cache, k, Cycle(ps, fs, cache, now).updates);
    if Changed(ps, fs, cache, k) {
      ChangedIsNamed(ps, fs, cache, k, Cycle(ps, fs, cache, now).updates);
    }
  }

  /** A package named among payloads of changed packages is itself changed. */
  lemma NamedOnlyChanged(ps: seq<string>, fs: seq<Option<string>>, cache: map<string, string>, k: nat, us: seq<EventData>)
    requires |ps| == |fs| && NoDup(ps) && k < |ps|
    requires forall d :: d in us ==>
      exists j :: 0 <= j < |ps| && Changed(ps, fs, cache, j) && d == PayloadAt(ps, fs, cache, j)
    ensures ps[k] in UpdatedNames(us) ==> Changed(ps, fs, cache, k)
  {
    if !Changed(ps, fs, cache, k) {
      forall d | d in us && d.PackageUpdate? ensures d.packageName != ps[k] {
        var j :| 0 <= j < |ps| && Changed(ps, fs, cache, j) && d == PayloadAt(ps, fs, cache, j);
        assert j != k && d.packageName == ps[j];
      }
    }
  }

  lemma ChangedIsNamed(ps: seq<string>, fs: seq<Option<string>>, cache: map<string, string>, k: nat, us: seq<EventData>)
    requires |ps| == |fs| && k < |ps| && Changed(ps, fs, cache, k)
    requires PayloadAt(ps, fs, cache, k) in us
    ensures ps[k] in UpdatedNames(us)
  {
    var d := PayloadAt(ps, fs, cache, k);
    assert d.PackageUpdate? && d.packageName == ps[k];
  }

  /** The packages named by a sequence of `package_update` payloads. */
  function UpdatedNames(us: seq<EventData>): set<string> {
    set d | d in us && d.PackageUpdate? :: d.packageName
  }

  /** Each `package_update` names a package fetched in this cycle, carries the
      version now cached for it, and is flagged as a first fetch exactly when
      the package had no cache entry. */
  lemma UpdatePayloads(ps: seq<string>, fs: seq<Option<string>>, cache: map<string, string>, now: int)
    requires |ps| == |fs| && NoDup(ps)
    ensures forall d :: d in Cycle(ps, fs, cache, now).updates ==>
      d.PackageUpdate? && d.packageName in FetchedSet(ps, fs) &&
      (d.isFirstFetch <==> d.packageName !in cache) &&
      Lookup(Cycle(ps, fs, cache, now).cache, d.packageName) == Some(d.latestVersion)
  {
    CycleUpdatesSound(ps, fs, cache, now);
    CacheAfterCycle(ps, fs, cache, now);
    var st := Cycle(ps, fs, cache, now);
    forall d | d in st.updates
      ensures d.PackageUpdate? && d.packageName in FetchedSet(ps, fs)
      ensures d.isFirstFetch <==> d.packageName !in cache
      ensures Lookup(st.cache, d.packageName) == Some(d.latestVersion)
    {
      var j :| 0 <= j < |ps| && Changed(ps, fs, cache, j) && d == PayloadAt(ps, fs, cache, j);
      assert d.packageName == ps[j] && d.latestVersion == fs[j].value;
      assert d.isFirstFetch == (Lookup(cache, ps[j]) == None);
    }
  }

  function ChangedIndices(ps: seq<string>, fs: seq<Option<string>>, cache: map<string, string>): set<nat>
    requires |ps| == |fs|
  {
    set k: nat | k < |ps| && Changed(ps, fs, cache, k)
  }

  lemma ChangedIndicesLast(ps: seq<string>, fs: seq<Option<string>>, cache: map<string, string>)
    requires |ps| == |fs| && ps != []
    ensures var n := |ps| - 1;
      ChangedIndices(ps, fs, cache) == ChangedIndices(ps[..n], fs[..n], cache) + (if Changed(ps, fs, cache, n) then {n} else {})
  {
  }

  /** Exactly one `package_update` per changed package. */
  lemma {:induction false} UpdateCount(ps: seq<string>, fs: seq<Option<string>>, cache: map<string, string>, now: int)
    requires |ps| == |fs| && NoDup(ps)
    ensures |Cycle(ps, fs, cache, now).updates| == |ChangedIndices(ps, fs, cache)|
    decreases |ps|
  {
    if ps != [] {
      var n := |ps| - 1;
      UpdateCount(ps[..n], fs[..n], cache, now);
      CycleUpdatesLast(ps, fs, cache, now);
      ChangedIndicesLast(ps, fs, cache);
      assert n !in ChangedIndices(ps[..n], fs[..n], cache);
    }
  }

  /** The last package's contribution to the events. */
  lemma CycleEventsLast(ps: seq<string>, fs: seq<Option<string>>, cache: map<string, string>, now: int)
    requires |ps| == |fs| && ps != []
    ensures var n := |ps| - 1;
      Cycle(ps, fs, cache, now).events == Cycle(ps[..n], fs[..n], cache, now).events +
        (if FetchedOk(fs[n]) then [PyPIEvent(ps[n], fs[n].value, now)] else [])
  {
  }

  /** Every event is for a package whose fetch succeeded. */
  lemma {:induction false} CycleEventsSound(ps: seq<string>, fs: seq<Option<string>>, cache: map<string, string>, now: int)
    requires |ps| == |fs|
    ensures forall e :: e in Cycle(ps, fs, cache, now).events ==>
      exists k :: 0 <= k < |ps| && FetchedOk(fs[k]) && e == PyPIEvent(ps[k], fs[k].value, now)
    decreases |ps|
  {
    if ps != [] {
      var n := |ps| - 1;
      CycleEventsSound(ps[..n], fs[..n], cache, now);
      CycleEventsLast(ps, fs, cache, now);
      forall e | e in Cycle(ps[..n], fs[..n], cache, now).events
        ensures exists k :: 0 <= k < |ps| && FetchedOk(fs[k]) && e == PyPIEvent(ps[k], fs[k].value, now)
      {
        var k :| 0 <= k < n && FetchedOk(fs[..n][k]) && e == PyPIEvent(ps[..n][k], fs[..n][k].value, now);
        assert ps[..n][k] == ps[k] && fs[..n][k] == fs[k];
      }
    }
  }

  /** Every successful fetch has its event. */
  lemma {:induction false} CycleEventsComplete(ps: seq<string>, fs: seq<Option<string>>, cache: map<string, string>, now: int)
    requires |ps| == |fs|
    ensures forall k :: 0 <= k < |ps| && FetchedOk(fs[k]) ==> PyPIEvent(ps[k], fs[k].value, now) in Cycle(ps, fs, cache, now).events
    decreases |ps|
  {
    if ps != [] {
      var n := |ps| - 1;
      CycleEventsComplete(ps[..n], fs[..n], cache, now);
      CycleEventsLast(ps, fs, cache, now);
      forall k | 0 <= k < n && FetchedOk(fs[k])
        ensures PyPIEvent(ps[k], fs[k].value, now) in Cycle(ps, fs, cache, now).events
      {
        assert ps[..n][k] == ps[k] && fs[..n][k] == fs[k];
      }
    }
  }

  /** One event per successful fetch. */
  lemma {:induction false} CycleEventsCount(ps: seq<string>, fs: seq<Option<string>>, cache: map<string, string>, now: int)
    requires |ps| == |fs|
    ensures |Cycle(ps, fs, cache, now).events| == |FetchedIndices(fs)|
    decreases |ps|
  {
    if ps != [] {
      var n := |ps| - 1;
      CycleEventsCount(ps[..n], fs[..n], cache, now);
      CycleEventsLast(ps, fs, cache, now);
      FetchedIndicesLast(fs);
    }
  }

  lemma FetchedIndicesLast(fs: seq<Option<string>>)
    requires fs != []
    ensures var n := |fs| - 1;
      |FetchedIndices(fs)| == |FetchedIndices(fs[..n])| + (if FetchedOk(fs[n]) then 1 else 0)
  {
    var n := |fs| - 1;
    assert FetchedIndices(fs) == FetchedIndices(fs[..n]) + (if FetchedOk(fs[n]) then {n} else {});
    assert n !in FetchedIndices(fs[..n]);
  }

  function FetchedIndices(fs: seq<Option<string>>): set<nat> {
    set k: nat | k < |fs| && FetchedOk(fs[k])
  }

  /** The cycle yields one event per successful fetch, whether or not the
      version changed, and no event for a failed one. */
  lemma EventsAfterCycle(ps: seq<string>, fs: seq<Option<string>>, cache: map<string, string>, now: int)
    requires |ps| == |fs|
    ensures |Cycle(ps, fs, cache, now).events| == |FetchedIndices(fs)|
    ensures forall k :: 0 <= k < |ps| ==>
      (FetchedOk(fs[k]) <==> PyPIEvent(ps[k], if fs[k].Some? then fs[k].value else "", now) in Cycle(ps, fs, cache, now).events)
  {
    CycleEventsSound(ps, fs, cache, now);
    CycleEventsComplete(ps, fs, cache, now);
    CycleEventsCount(ps, fs, cache, now);
    var ev := Cycle(ps, fs, cache, now).events;
    forall k | 0 <= k < |ps| && PyPIEvent(ps[k], if fs[k].Some? then fs[k].value else "", now) in ev
      ensures FetchedOk(fs[k])
    {
      var e := PyPIEvent(ps[k], if fs[k].Some? then fs[k].value else "", now);
      var j :| 0 <= j < |ps| && FetchedOk(fs[j]) && e == PyPIEvent(ps[j], fs[j].value, now);
    }
  }

  /** Polling again with the same answers broadcasts nothing: unchanged
      versions produce no `package_update`. */
  lemma SecondCycleQuiet(ps: seq<string>, fs: seq<Option<string>>, cache: map<string, string>, now: int, later: int)
    requires |ps| == |fs| && NoDup(ps)
    ensures Cycle(ps, fs, Cycle(ps, fs, cache, now).cache, later).updates == []
  {
    var c1 := Cycle(ps, fs, cache, now).cache;
    CacheAfterCycle(ps, fs, cache, now);
    UpdateCount(ps, fs, c1, later);
    assert ChangedIndices(ps, fs, c1) == {};
  }

  /** Wraps the payloads as the broadcaster's events. */
  function UpdateEvents(ds: seq<EventData>, now: string): (es: seq<Event>)
    ensures |es| == |ds|
  {
    seq(|ds|, i requires 0 <= i < |ds| => Event("package_update", now, ds[i]))
  }

  /** A step appends to what the cycle has built so far. */
  lemma StepSplit(st: CycleState, p: string, f: Option<string>, now: int)
    ensures var one := Step(CycleState(st.cache, [], []), p, f, now);
      Step(st, p, f, now) == CycleState(one.cache, st.updates + one.updates, st.events + one.events)
  {
  }

  /** Extending the visited prefix by one package is one more `Step`. */
  lemma CycleNext(ps: seq<string>, fs: seq<Option<string>>, cache: map<string, string>, now: int, i: nat)
    requires |ps| == |fs| && i < |ps|
    ensures Cycle(ps[..i + 1], fs[..i + 1], cache, now) == Step(Cycle(ps[..i], fs[..i], cache, now), ps[i], fs[i], now)
  {
    assert ps[..i + 1][..i] == ps[..i] && fs[..i + 1][..i] == fs[..i];
  }

  lemma UpdateEventsAppend(a: seq<EventData>, b: seq<EventData>, now: string)
    ensures UpdateEvents(a + b, now) == UpdateEvents(a, now) + UpdateEvents(b, now)
  {
  }

  class PyPIStreamSource {
    /** The watched set, in the order the loop visits it. */
    const packages: seq<string>
    const broadcaster: EventBroadcaster?
    var pypiCache: map<string, string>

    constructor (packages: seq<string>, broadcaster: EventBroadcaster?)
      requires NoDup(packages)
      ensures this.packages == packages && this.broadcaster == broadcaster
      ensures pypiCache == map[]
    {
      this.packages := packages;
      this.broadcaster := broadcaster;
      pypiCache := map[];
    }

    ghost function BroadcasterFootprint(): set<object>
      reads this, broadcaster
    {
      if broadcaster == null then {} else {broadcaster} + broadcaster.Repr
    }

    /** The loop body for one package: update the cache and broadcast when
        the fetched version differs from the cached one, and yield an event
        whenever the fetch succeeded. `st` is the state the loop has built so
        far and `h0` the broadcast history from before the loop. */
    method HandleFetch(name: string, latest: Option<string>, now: string, nowUnix: int,
                       ghost st: CycleState, ghost h0: seq<Event>) returns (yielded: seq<PyPIEvent>)
      requires pypiCache == st.cache
      requires broadcaster != null ==> broadcaster.Valid() && broadcaster.history == h0 + UpdateEvents(st.updates, now)
      modifies this, BroadcasterFootprint()
      ensures var st' := Step(st, name, latest, nowUnix);
        && pypiCache == st'.cache && st.events + yielded == st'.events
        && (broadcaster != null ==>
             && broadcaster.Valid() && broadcaster.Repr == old(broadcaster.Repr)
             && broadcaster.history == h0 + UpdateEvents(st'.updates, now))
    {
      ghost var one := Step(CycleState(st.cache, [], []), name, latest, nowUnix);
      StepSplit(st, name, latest, nowUnix);
      UpdateEventsAppend(st.updates, one.updates, now);
      yielded := [];
      if latest.Some? && latest.value != "" {
        var cached := if name in pypiCache then Some(pypiCache[name]) else None;
        if cached != Some(latest.value) {
          pypiCache := pypiCache[name := latest.value];
          if broadcaster != null {
            broadcaster.Broadcast("package_update", UpdateData(name, cached, latest.value), now);
          }
        }
        yielded := [PyPIEvent(name, latest.value, nowUnix)];
      }
    }

    /** One iteration of the `while self._running` loop: broadcast
        `poll_start`, run the per-package loop, return the events it yields.
        `now` is the clock reading used for the broadcasts, `nowUnix` the
        event timestamp. */
    method PollCycle(fetched: seq<Option<string>>, now: string, nowUnix: int) returns (events: seq<PyPIEvent>)
      requires |fetched| == |packages| && NoDup(packages)
      requires broadcaster != null ==> broadcaster.Valid()
      modifies this, BroadcasterFootprint()
      ensures pypiCache == Cycle(packages, fetched, old(pypiCache), nowUnix).cache
      ensures events == Cycle(packages, fetched, old(pypiCache), nowUnix).events
      ensures broadcaster != null ==>
        && broadcaster.Valid() && broadcaster.Repr == old(broadcaster.Repr)
        && broadcaster.history == old(broadcaster.history)
             + [Event("poll_start", now, PollStart(|packages|))]
             + UpdateEvents(Cycle(packages, fetched, old(pypiCache), nowUnix).updates, now)
    {
      if broadcaster != null {
        broadcaster.Broadcast("poll_start", PollStart(|packages|), now);
      }
      ghost var h0 := if broadcaster != null then broadcaster.history else [];
      ghost var cache0 := pypiCache;
      ghost var st := CycleState(cache0, [], []);
      events := [];
      var i := 0;
      while i < |packages|
        invariant 0 <= i <= |packages|
        invariant st == Cycle(packages[..i], fetched[..i], cache0, nowUnix)
        invariant pypiCache == st.cache && events == st.events
        invariant broadcaster != null ==>
          && broadcaster.Valid() && broadcaster.Repr == old(broadcaster.Repr)
          && broadcaster.history == h0 + UpdateEvents(st.updates, now)
      {
        var yielded := HandleFetch(packages[i], fetched[i], now, nowUnix, st, h0);
        CycleNext(packages, fetched, cache0, nowUnix, i);
        st := Step(st, packages[i], fetched[i], nowUnix);
        events := events + yielded;
        i := i + 1;
      }
      assert packages[..i] == packages && fetched[..i] == fetched;
    }
  }
}
