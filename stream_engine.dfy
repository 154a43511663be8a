/**
 * The batch side of PathwayStreamEngine (core/pathway_stream.py): loading the
 * repository's dependencies, one fetch of the latest versions, the join that
 * classifies each fetched package, and the breaking/outdated filters.
 * The registry's answers and the iteration order of `set(keys)` are inputs.
 */
module StreamEngine {
  import opened Wrappers
  import opened Dicts
  import opened Versions
  import Seqs
  import PollSource

  /** One entry of `_batch_updates`. */
  datatype BatchUpdate = BatchUpdate(packageName: string, latestVersion: string, currentVersion: string)

  /** The record `perform_streaming_join` builds for a batch update. */
  datatype PackageUpdate = PackageUpdate(
    packageName: string, currentVersion: string, latestVersion: string, status: Status, isBreaking: bool)

  const Placeholder: string := "0.0.0"

  /** The version kept for a dependency: its own when it is a non-empty
      string other than "N/A", the placeholder otherwise. */
  function EffectiveVersion(v: Option<string>): string {
    if v.Some? && v.value != "" && v.value != "N/A" then v.value else Placeholder
  }

  /** A dependency is never loaded with an empty or "N/A" version. One
      without a usable version gets the placeholder, which can never be
      classified as ahead of a parseable latest version, so such a package is
      still reported whenever a release is known; one with a version is
      classified by that version. */
  lemma EffectiveVersionMeaning(v: Option<string>, latest: string)
    ensures EffectiveVersion(v) != "" && EffectiveVersion(v) != "N/A"
    ensures (v.None? || v.value == "" || v.value == "N/A") && ParseVersion(latest).Some? ==>
      CompareVersions(EffectiveVersion(v), latest) in {UpToDate, Outdated, Breaking}
    ensures v.Some? && v.value != "" && v.value != "N/A" ==>
      CompareVersions(EffectiveVersion(v), latest) == CompareVersions(v.value, latest)
  {
    if ParseVersion(latest).Some? {
      PlaceholderNeverAhead(latest);
    }
  }

  /** `_batch_updates` after a fetch: packages visited in `order`, with the
      registry answers `fetched`, keeping only successful fetches. */
  function BatchOf(order: seq<string>, fetched: seq<Option<string>>, deps: map<string, string>): seq<BatchUpdate>
    requires |order| == |fetched|
    requires forall p :: p in order ==> p in deps
    decreases |order|
  {
    if order == [] then []
    else
      var n := |order| - 1;
      var rest := BatchOf(order[..n], fetched[..n], deps);
      if PollSource.FetchedOk(fetched[n]) then
        rest + [BatchUpdate(order[n], fetched[n].value, deps[order[n]])]
      else rest
  }

  lemma BatchOfLast(order: seq<string>, fetched: seq<Option<string>>, deps: map<string, string>)
    requires |order| == |fetched| && order != []
    requires forall p :: p in order ==> p in deps
    ensures var n := |order| - 1;
      BatchOf(order, fetched, deps) == BatchOf(order[..n], fetched[..n], deps) +
        (if PollSource.FetchedOk(fetched[n]) then [BatchUpdate(order[n], fetched[n].value, deps[order[n]])] else [])
  {
  }

  /** Every batch update pairs a successfully fetched package with its
      repository version. */
  lemma {:induction false} BatchOfSound(order: seq<string>, fetched: seq<Option<string>>, deps: map<string, string>)
    requires |order| == |fetched|
    requires forall p :: p in order ==> p in deps
    ensures forall u :: u in BatchOf(order, fetched, deps) ==>
      (exists i :: 0 <= i < |order| && PollSource.FetchedOk(fetched[i]) &&
        u == BatchUpdate(order[i], fetched[i].value, deps[order[i]]))
    decreases |order|
  {
    if order != [] {
      var n := |order| - 1;
      BatchOfSound(order[..n], fetched[..n], deps);
      BatchOfLast(order, fetched, deps);
      forall u | u in BatchOf(order, fetched, deps)
        ensures exists i :: (0 <= i < |order| && PollSource.FetchedOk(fetched[i]) &&
          u == BatchUpdate(order[i], fetched[i].value, deps[order[i]]))
      {
        if u in BatchOf(order[..n], fetched[..n], deps) {
          var i :| 0 <= i < n && PollSource.FetchedOk(fetched[..n][i]) &&
            u == BatchUpdate(order[..n][i], fetched[..n][i].value, deps[order[..n][i]]);
          assert order[..n][i] == order[i] && fetched[..n][i] == fetched[i];
        }
      }
    }
  }

  /** Every successful fetch has its batch update. */
  lemma {:induction false} BatchOfComplete(order: seq<string>, fetched: seq<Option<string>>, deps: map<string, string>)
    requires |order| == |fetched|
    requires forall p :: p in order ==> p in deps
    ensures forall i :: 0 <= i < |order| && PollSource.FetchedOk(fetched[i]) ==>
      BatchUpdate(order[i], fetched[i].value, deps[order[i]]) in BatchOf(order, fetched, deps)
    decreases |order|
  {
    if order != [] {
      var n := |order| - 1;
      BatchOfComplete(order[..n], fetched[..n], deps);
      BatchOfLast(order, fetched, deps);
      forall i | 0 <= i < |order| && PollSource.FetchedOk(fetched[i])
        ensures BatchUpdate(order[i], fetched[i].value, deps[order[i]]) in BatchOf(order, fetched, deps)
      {
        if i < n {
          assert order[..n][i] == order[i] && fetched[..n][i] == fetched[i];
        }
      }
    }
  }

  /** One batch update per successful fetch. */
  lemma {:induction false} BatchOfCount(order: seq<string>, fetched: seq<Option<string>>, deps: map<string, string>)
    requires |order| == |fetched|
    requires forall p :: p in order ==> p in deps
    ensures |BatchOf(order, fetched, deps)| == |PollSource.FetchedIndices(fetched)|
    decreases |order|
  {
    if order != [] {
      var n := |order| - 1;
      BatchOfCount(order[..n], fetched[..n], deps);
      BatchOfLast(order, fetched, deps);
      PollSource.FetchedIndicesLast(fetched);
    }
  }

  /** The comparison applied to one batch update. */
  function Join(u: BatchUpdate): PackageUpdate {
    PackageUpdate(u.packageName, u.currentVersion, u.latestVersion,
      CompareVersions(u.currentVersion, u.latestVersion),
      IsBreakingChange(u.currentVersion, u.latestVersion))
  }

  function JoinAll(batch: seq<BatchUpdate>): (r: seq<PackageUpdate>)
    ensures |r| == |batch|
  {
    Seqs.Map(Join, batch)
  }

  /** A joined record's status is `breaking` exactly when its flag is set,
      and the record keeps the batch update's package and versions. */
  lemma JoinConsistent(u: BatchUpdate)
    ensures Join(u).status == Breaking <==> Join(u).isBreaking
    ensures Join(u).packageName == u.packageName
    ensures Join(u).currentVersion == u.currentVersion && Join(u).latestVersion == u.latestVersion
  {
    StatusBreakingIff(u.currentVersion, u.latestVersion);
  }

  predicate IsBreakingRecord(u: PackageUpdate) { u.isBreaking }

  predicate IsOutdatedRecord(u: PackageUpdate) { u.status == Outdated }

  /** `get_breaking_packages` and `get_outdated_packages` never report the
      same record. */
  lemma BreakingOutdatedDisjoint(batch: seq<BatchUpdate>)
    ensures forall x :: x in Seqs.Filter(JoinAll(batch), IsBreakingRecord) ==>
      x !in Seqs.Filter(JoinAll(batch), IsOutdatedRecord)
  {
    forall x | x in JoinAll(batch)
      ensures !(IsBreakingRecord(x) && IsOutdatedRecord(x))
    {
      var i :| 0 <= i < |batch| && JoinAll(batch)[i] == x;
      JoinConsistent(batch[i]);
    }
    Seqs.FilterDisjoint(JoinAll(batch), IsBreakingRecord, IsOutdatedRecord);
  }

  /** The dependencies loaded from the first `i` keys of `deps`. */
  function LoadedUpTo(deps: Dict<string, Option<string>>, i: nat): Dict<string, string>
    requires deps.Valid() && i <= |deps.keys|
  {
    if i == 0 then Empty()
    else
      var name := deps.keys[i - 1];
      assert name in deps.keys;
      LoadedUpTo(deps, i - 1).Put(name, EffectiveVersion(deps.vals[name]))
  }

  lemma LoadedUpToNext(deps: Dict<string, Option<string>>, i: nat)
    requires deps.Valid() && i < |deps.keys|
    ensures deps.keys[i] in deps.vals
    ensures LoadedUpTo(deps, i + 1) == LoadedUpTo(deps, i).Put(deps.keys[i], EffectiveVersion(deps.vals[deps.keys[i]]))
  {
  }

  /** The first `i` keys are loaded, in order, each with its effective version. */
  lemma LoadedUpToMeaning(deps: Dict<string, Option<string>>, i: nat)
    requires deps.Valid() && i <= |deps.keys|
    ensures LoadedUpTo(deps, i).Valid()
    ensures LoadedUpTo(deps, i).keys == deps.keys[..i]
    ensures forall k :: k in deps.keys[..i] ==>
      (k in LoadedUpTo(deps, i).vals && LoadedUpTo(deps, i).vals[k] == EffectiveVersion(deps.vals[k]))
  {
    LoadedUpToKeys(deps, i);
    forall k | k in deps.keys[..i]
      ensures k in LoadedUpTo(deps, i).vals && LoadedUpTo(deps, i).vals[k] == EffectiveVersion(deps.vals[k])
    {
      LoadedUpToValue(deps, i, k);
    }
  }

  lemma {:induction false} LoadedUpToKeys(deps: Dict<string, Option<string>>, i: nat)
    requires deps.Valid() && i <= |deps.keys|
    ensures LoadedUpTo(deps, i).Valid()
    ensures LoadedUpTo(deps, i).keys == deps.keys[..i]
  {
    if i > 0 {
      LoadedUpToKeys(deps, i - 1);
      var name := deps.keys[i - 1];
      assert name !in deps.keys[..i - 1];
      assert deps.keys[..i] == deps.keys[..i - 1] + [name];
    }
  }

  lemma {:induction false} LoadedUpToValue(deps: Dict<string, Option<string>>, i: nat, k: string)
    requires deps.Valid() && i <= |deps.keys| && k in deps.keys[..i]
    ensures k in LoadedUpTo(deps, i).vals && LoadedUpTo(deps, i).vals[k] == EffectiveVersion(deps.vals[k])
  {
    var name := deps.keys[i - 1];
    if k != name {
      assert k in deps.keys[..i - 1] by {
        var j :| 0 <= j < i && deps.keys[j] == k;
        assert j < i - 1;
      }
      LoadedUpToValue(deps, i - 1, k);
    }
  }

  class PathwayStreamEngine {
    var repoDependencies: Dict<string, string>
    /** `_batch_updates`; None until the first fetch (the attribute is unset). */
    var batchUpdates: Option<seq<BatchUpdate>>

    constructor ()
      ensures repoDependencies == Empty() && batchUpdates == None
    {
      repoDependencies := Empty();
      batchUpdates := None;
    }

    ghost predicate Valid()
      reads this
    {
      repoDependencies.Valid()
    }

    /** `load_repo_dependencies`: `deps` maps each name to the version found
        for it (None when the dependency has none). Every key is kept, in
        order; a missing, empty or "N/A" version becomes the placeholder. */
    method LoadRepoDependencies(deps: Dict<string, Option<string>>)
      requires deps.Valid()
      modifies this
      ensures Valid()
      ensures repoDependencies.keys == deps.keys
      ensures forall k :: k in deps.vals ==>
        (k in repoDependencies.vals && repoDependencies.vals[k] == EffectiveVersion(deps.vals[k]))
      ensures batchUpdates == old(batchUpdates)
    {
      repoDependencies := Empty();
      var i := 0;
      while i < |deps.keys|
        invariant 0 <= i <= |deps.keys|
        invariant repoDependencies == LoadedUpTo(deps, i)
        invariant batchUpdates == old(batchUpdates)
      {
        var name := deps.keys[i];
        var version := deps.vals[name];
        LoadedUpToNext(deps, i);
        if version.Some? && version.value != "" && version.value != "N/A" {
          repoDependencies := repoDependencies.Put(name, version.value);
        } else {
          repoDependencies := repoDependencies.Put(name, Placeholder);
        }
        i := i + 1;
      }
      LoadedUpToMeaning(deps, i);
      assert deps.keys[..i] == deps.keys;
    }

    /** `fetch_pypi_updates`: `order` is the iteration order of the
        dependency names and `fetched[i]` the registry's answer for
        `order[i]`. Fails, changing nothing, when no dependency is loaded. */
    method FetchPypiUpdates(order: seq<string>, fetched: seq<Option<string>>) returns (err: Option<string>)
      requires Valid()
      requires |order| == |fetched| && NoDup(order)
      requires forall p :: p in order <==> p in repoDependencies.vals
      modifies this
      ensures Valid() && repoDependencies == old(repoDependencies)
      ensures err.Some? <==> repoDependencies.Size() == 0
      ensures err.Some? ==> batchUpdates == old(batchUpdates)
      ensures err.None? ==> batchUpdates == Some(BatchOf(order, fetched, repoDependencies.vals))
    {
      if |repoDependencies.keys| == 0 {
        return Some("No dependencies loaded. Call load_repo_dependencies() first.");
      }
      var updates: seq<BatchUpdate> := [];
      var i := 0;
      while i < |order|
        invariant 0 <= i <= |order|
        invariant updates == BatchOf(order[..i], fetched[..i], repoDependencies.vals)
      {
        var name := order[i];
        var latest := fetched[i];
        assert order[..i + 1][..i] == order[..i] && fetched[..i + 1][..i] == fetched[..i];
        if latest.Some? && latest.value != "" {
          updates := updates + [BatchUpdate(name, latest.value, repoDependencies.vals[name])];
        }
        i := i + 1;
      }
      assert order[..i] == order && fetched[..i] == fetched;
      batchUpdates := Some(updates);
      err := None;
    }

    /** `perform_streaming_join`: fails before any fetch; otherwise one
        record per batch update, in order, each classified from its own
        versions. */
    method PerformStreamingJoin() returns (r: Result<seq<PackageUpdate>>)
      ensures batchUpdates.None? <==> r.Err?
      ensures r.Ok? ==> r.value == JoinAll(batchUpdates.value)
    {
      if batchUpdates.None? {
        return Err("No updates available. Call fetch_pypi_updates() first.");
      }
      var batch := batchUpdates.value;
      var results: seq<PackageUpdate> := [];
      var i := 0;
      while i < |batch|
        invariant 0 <= i <= |batch|
        invariant results == JoinAll(batch[..i])
      {
        var u := batch[i];
        var status := CompareVersions(u.currentVersion, u.latestVersion);
        var breaking := IsBreakingChange(u.currentVersion, u.latestVersion);
        Seqs.MapNext(Join, batch, i);
        results := results + [PackageUpdate(u.packageName, u.currentVersion, u.latestVersion, status, breaking)];
        i := i + 1;
      }
      assert batch[..i] == batch;
      r := Ok(results);
    }

    /** `get_breaking_packages`: empty before any fetch; otherwise the joined
        records flagged breaking, and all of them. */
    method GetBreakingPackages() returns (r: seq<PackageUpdate>)
      ensures batchUpdates.None? ==> r == []
      ensures batchUpdates.Some? ==> forall x :: x in r <==> x in JoinAll(batchUpdates.value) && x.isBreaking
      ensures batchUpdates.Some? ==> r == Seqs.Filter(JoinAll(batchUpdates.value), IsBreakingRecord)
    {
      if batchUpdates.None? {
        return [];
      }
      var all := PerformStreamingJoin();
      r := Seqs.Filter(all.value, IsBreakingRecord);
    }

    /** `get_outdated_packages`: empty before any fetch; otherwise the joined
        records whose status is `outdated`, and all of them. */
    method GetOutdatedPackages() returns (r: seq<PackageUpdate>)
      ensures batchUpdates.None? ==> r == []
      ensures batchUpdates.Some? ==> forall x :: x in r <==> x in JoinAll(batchUpdates.value) && x.status == Outdated
      ensures batchUpdates.Some? ==> r == Seqs.Filter(JoinAll(batchUpdates.value), IsOutdatedRecord)
    {
      if batchUpdates.None? {
        return [];
      }
      var all := PerformStreamingJoin();
      r := Seqs.Filter(all.value, IsOutdatedRecord);
    }
  }
}
