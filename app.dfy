/**
 * DeprecationIntelligenceSystem (app.py): the seven-step pipeline that
 * fetches a repository, parses its requirements, classifies the latest
 * releases, scans the code of the breaking packages, maps the impacts,
 * generates fixes, and builds the final structured report.
 *
 * What the outside world answers (the file system, the registry, the
 * language model, the directory walk, `Path.relative_to`) is gathered in an
 * `Environment`; `Pipeline` is the whole run as a function of it and of the
 * state the system object kept from earlier runs.
 */
module App {
  import opened Wrappers
  import opened Dicts
  import opened Versions
  import Seqs
  import DP = DepParser
  import SE = StreamEngine
  import CS = CodeScanner
  import IM = ImpactMapper
  import AF = AIFixer
  import RF = RepoFetcher

  // ---------------------------------------------------------------------
  // The structured report

  /** One entry of a file's `impacts` list. */
  datatype ImpactLine = ImpactLine(line: int, api: string, context: string)

  /** The `ai_fix` entry of a file. */
  datatype FixInfo = FixInfo(explanation: string, fixedCode: string, migrationNotes: string, confidence: real)

  /** One entry of `impacted_files`; `aiFix` is None when the key is absent. */
  datatype FileImpact = FileImpact(file: string, impacts: seq<ImpactLine>, aiFix: Option<FixInfo>)

  /** One entry of `results`. */
  datatype PackageResult = PackageResult(
    package: string, currentVersion: string, latestVersion: string, status: Status,
    impactedFiles: seq<FileImpact>)

  /** What `run` returns: `{'error': ...}` or the final report. */
  datatype Report =
    | Failed(error: Option<string>)
    | Final(repository: string, totalDependencies: nat, totalUpdates: nat,
            breakingChanges: nat, outdatedPackages: nat, results: seq<PackageResult>)

  const NoDependenciesError: string := "No dependencies found"

  predicate Matches(f: AF.AIFix, file: string, line: int) {
    f.filePath == file && f.lineNumber == line
  }

  /** `next((f for f in fixes if ...), None)`: the first fix for the line. */
  function FirstFix(fixes: seq<AF.AIFix>, file: string, line: int): (r: Option<AF.AIFix>)
    ensures r.Some? ==> r.value in fixes && Matches(r.value, file, line)
    ensures r.None? <==> forall f :: f in fixes ==> !Matches(f, file, line)
    decreases |fixes|
  {
    if fixes == [] then None
    else if Matches(fixes[0], file, line) then Some(fixes[0])
    else FirstFix(fixes[1..], file, line)
  }

  /** The fix found is the earliest one for the line. */
  lemma {:induction false} FirstFixAt(fixes: seq<AF.AIFix>, file: string, line: int, i: nat)
    requires i < |fixes| && Matches(fixes[i], file, line)
    requires forall j :: 0 <= j < i ==> !Matches(fixes[j], file, line)
    ensures FirstFix(fixes, file, line) == Some(fixes[i])
    decreases i
  {
    if i > 0 {
      assert !Matches(fixes[0], file, line);
      FirstFixAt(fixes[1..], file, line, i - 1);
    }
  }

  /** Fixes kept from an earlier run are searched before the new ones, so an
      older fix for the same line wins. */
  lemma {:induction false} FirstFixAppend(older: seq<AF.AIFix>, newer: seq<AF.AIFix>, file: string, line: int)
    ensures FirstFix(older + newer, file, line) ==
      if FirstFix(older, file, line).Some? then FirstFix(older, file, line) else FirstFix(newer, file, line)
    decreases |older|
  {
    if older != [] {
      assert (older + newer)[1..] == older[1..] + newer;
      FirstFixAppend(older[1..], newer, file, line);
    } else {
      assert older + newer == newer;
    }
  }

  function FixInfoOf(f: AF.AIFix): FixInfo {
    FixInfo(f.explanation, f.fixedCode, f.migrationNotes, f.confidence)
  }

  function ImpactLineOf(c: IM.ImpactedCode): ImpactLine {
    ImpactLine(c.lineNumber, c.apiElement, c.context)
  }

  /** The entry for one file and its impacted locations. */
  function FileImpactOf(file: string, codes: seq<IM.ImpactedCode>, fixes: seq<AF.AIFix>,
                        relativeTo: string -> string): FileImpact
    requires codes != []
  {
    var fix := FirstFix(fixes, file, codes[0].lineNumber);
    FileImpact(relativeTo(file),
      seq(|codes|, i requires 0 <= i < |codes| => ImpactLineOf(codes[i])),
      if fix.Some? then Some(FixInfoOf(fix.value)) else None)
  }

  /** Every group of a grouping by file is non-empty. */
  lemma GroupNonEmpty(codes: seq<IM.ImpactedCode>)
    ensures forall f :: f in IM.GroupByFile(codes).vals ==> IM.GroupByFile(codes).vals[f] != []
  {
    IM.GroupByFileValid(codes);
    forall f | f in IM.GroupByFile(codes).vals
      ensures IM.GroupByFile(codes).vals[f] != []
    {
      IM.GroupByFileMeaning(codes, f);
      var c :| c in codes && c.filePath == f;
      assert c in IM.CodesIn(codes, f);
    }
  }

  /** The `impacted_files` of a breaking package: one entry per file, in the
      order the files first appear among the impacted locations. */
  function FileImpacts(codes: seq<IM.ImpactedCode>, fixes: seq<AF.AIFix>, relativeTo: string -> string): seq<FileImpact> {
    var byFile := IM.GroupByFile(codes);
    IM.GroupByFileValid(codes);
    GroupNonEmpty(codes);
    seq(|byFile.keys|, i requires 0 <= i < |byFile.keys| =>
      assert byFile.keys[i] in byFile.vals;
      FileImpactOf(byFile.keys[i], byFile.vals[byFile.keys[i]], fixes, relativeTo))
  }

  /** Each impacted file appears once; its entry lists that file's locations
      in order, and its fix is the earliest one for the file's first location. */
  lemma FileImpactsMeaning(codes: seq<IM.ImpactedCode>, fixes: seq<AF.AIFix>, relativeTo: string -> string, i: nat)
    requires i < |FileImpacts(codes, fixes, relativeTo)|
    ensures var byFile := IM.GroupByFile(codes);
      var file := byFile.keys[i];
      var here := IM.CodesIn(codes, file);
      var e := FileImpacts(codes, fixes, relativeTo)[i];
      && file in IM.FilesOfCodes(codes)
      && here != []
      && e.file == relativeTo(file)
      && |e.impacts| == |here|
      && (forall k :: 0 <= k < |here| ==> e.impacts[k] == ImpactLineOf(here[k]))
      && (e.aiFix.Some? <==> FirstFix(fixes, file, here[0].lineNumber).Some?)
      && (e.aiFix.Some? ==> e.aiFix.value == FixInfoOf(FirstFix(fixes, file, here[0].lineNumber).value))
  {
    var byFile := IM.GroupByFile(codes);
    IM.GroupByFileValid(codes);
    GroupNonEmpty(codes);
    assert byFile.keys[i] in byFile.vals;
    IM.GroupByFileMeaning(codes, byFile.keys[i]);
  }

  /** Every file with an impacted location gets exactly one entry. */
  lemma FileImpactsFiles(codes: seq<IM.ImpactedCode>, fixes: seq<AF.AIFix>, relativeTo: string -> string)
    ensures |FileImpacts(codes, fixes, relativeTo)| == |IM.FilesOfCodes(codes)|
    ensures NoDup(IM.GroupByFile(codes).keys)
    ensures forall f :: f in IM.GroupByFile(codes).keys <==> f in IM.FilesOfCodes(codes)
  {
    var byFile := IM.GroupByFile(codes);
    IM.GroupByFileValid(codes);
    IM.NoDupCard(byFile.keys);
    assert (set x | x in byFile.keys) == IM.FilesOfCodes(codes);
  }

  /** The entry of one update: files only for a breaking package that has an
      impact report. */
  function PackageResultOf(u: SE.PackageUpdate, impacts: Dict<string, IM.BreakingChangeImpact>,
                           fixes: seq<AF.AIFix>, relativeTo: string -> string): PackageResult
  {
    var report := impacts.Get(u.packageName);
    PackageResult(u.packageName, u.currentVersion, u.latestVersion, u.status,
      if u.status == Breaking && report.Some? then FileImpacts(report.value.impactedCode, fixes, relativeTo) else [])
  }

  /** `results`: one entry per update, in order. */
  function ResultsOf(updates: seq<SE.PackageUpdate>, impacts: Dict<string, IM.BreakingChangeImpact>,
                     fixes: seq<AF.AIFix>, relativeTo: string -> string): seq<PackageResult>
  {
    seq(|updates|, i requires 0 <= i < |updates| => PackageResultOf(updates[i], impacts, fixes, relativeTo))
  }

  /** Each result carries its update's name, versions and status; only a
      breaking package with an impact report lists files, and then it lists
      exactly the files of that report. */
  lemma ResultsMeaning(updates: seq<SE.PackageUpdate>, impacts: Dict<string, IM.BreakingChangeImpact>,
                       fixes: seq<AF.AIFix>, relativeTo: string -> string, i: nat)
    requires i < |updates|
    ensures |ResultsOf(updates, impacts, fixes, relativeTo)| == |updates|
    ensures var u := updates[i];
      var r := ResultsOf(updates, impacts, fixes, relativeTo)[i];
      && r.package == u.packageName && r.currentVersion == u.currentVersion
      && r.latestVersion == u.latestVersion && r.status == u.status
      && (r.impactedFiles != [] ==> u.status == Breaking && u.packageName in impacts.vals)
      && (u.status == Breaking && u.packageName in impacts.vals ==>
            |r.impactedFiles| == |IM.FilesOfCodes(impacts.vals[u.packageName].impactedCode)|)
  {
    var u := updates[i];
    if u.status == Breaking && u.packageName in impacts.vals {
      FileImpactsFiles(impacts.vals[u.packageName].impactedCode, fixes, relativeTo);
    }
  }

  // ---------------------------------------------------------------------
  // The run as a function of its environment

  /** What the outside world answers during one run. `order` is the
      iteration order of the set of dependency names, `latest` the
      registry's answer for a name, `sources` the Python files the walk of
      the repository finds, `reply` the model's answer for an impacted
      location and `relativeTo` the path of a file relative to the
      repository. */
  datatype Environment = Environment(
    cacheDir: string, local: RF.DirFacts, cached: RF.DirFacts, clone: RF.CloneOutcome,
    requirements: seq<DP.RequirementsFile>,
    order: seq<string>, latest: string -> Option<string>,
    sources: seq<CS.SourceFile>,
    reply: IM.ImpactedCode -> Option<string>, decode: string -> Option<AF.LlmReply>,
    relativeTo: string -> string)

  /** The attributes the system object keeps between runs. */
  datatype State = State(
    repoPath: Option<string>, dependencies: Dict<string, DP.Dependency>, updates: seq<SE.PackageUpdate>,
    usageReports: Dict<string, CS.PackageUsageReport>, impactReports: Dict<string, IM.BreakingChangeImpact>,
    aiFixes: seq<AF.AIFix>)

  function InitialState(): State {
    State(None, Empty(), [], Empty(), Empty(), [])
  }

  /** The iteration order lists each parsed dependency once. */
  ghost predicate OrderFits(env: Environment) {
    NoDup(env.order) && forall p :: p in env.order <==> p in DP.Merge(DP.AllDeps(env.requirements)).vals
  }

  /** What `load_repo_dependencies` receives: each name's version. */
  function VersionsOf(deps: Dict<string, DP.Dependency>): (r: Dict<string, Option<string>>)
    ensures r.keys == deps.keys && r.vals.Keys == deps.vals.Keys
  {
    Dict(deps.keys, map k | k in deps.vals :: deps.vals[k].version)
  }

  /** `repo_dependencies` after loading. */
  function LoadedVersions(deps: Dict<string, DP.Dependency>): (m: map<string, string>)
    ensures m.Keys == deps.vals.Keys
  {
    map k | k in deps.vals :: SE.EffectiveVersion(deps.vals[k].version)
  }

  function Fetched(order: seq<string>, latest: string -> Option<string>): (r: seq<Option<string>>)
    ensures |r| == |order|
  {
    seq(|order|, i requires 0 <= i < |order| => latest(order[i]))
  }

  /** The records of steps 3 and 4. */
  function UpdatesOf(deps: Dict<string, DP.Dependency>, order: seq<string>, latest: string -> Option<string>): seq<SE.PackageUpdate>
    requires forall p :: p in order ==> p in deps.vals
  {
    SE.JoinAll(SE.BatchOf(order, Fetched(order, latest), LoadedVersions(deps)))
  }

  function Names(us: seq<SE.PackageUpdate>): (r: seq<string>)
    ensures |r| == |us|
  {
    seq(|us|, i requires 0 <= i < |us| => us[i].packageName)
  }

  /** The fixes `generate_fixes_for_impact` gives for one impact. */
  function FixesOfImpact(b: IM.BreakingChangeImpact, llmAvailable: bool, reply: IM.ImpactedCode -> Option<string>,
                         decode: string -> Option<AF.LlmReply>): seq<AF.AIFix>
  {
    seq(|b.impactedCode|, i requires 0 <= i < |b.impactedCode| =>
      AF.GenerateFix(b.impactedCode[i], llmAvailable, reply(b.impactedCode[i]), decode))
  }

  /** The fixes of step 7, impact after impact. */
  function FixesFor(bs: seq<IM.BreakingChangeImpact>, llmAvailable: bool, reply: IM.ImpactedCode -> Option<string>,
                    decode: string -> Option<AF.LlmReply>): seq<AF.AIFix>
    decreases |bs|
  {
    if bs == [] then []
    else
      var n := |bs| - 1;
      FixesFor(bs[..n], llmAvailable, reply, decode) + FixesOfImpact(bs[n], llmAvailable, reply, decode)
  }

  /** What `generate_fixes_for_impact` promises is `FixesOfImpact`. */
  lemma FixesOfImpactIs(b: IM.BreakingChangeImpact, llmAvailable: bool, reply: IM.ImpactedCode -> Option<string>,
                        decode: string -> Option<AF.LlmReply>, replies: seq<Option<string>>, fixes: seq<AF.AIFix>)
    requires |replies| == |b.impactedCode| && forall k :: 0 <= k < |replies| ==> replies[k] == reply(b.impactedCode[k])
    requires |fixes| == |b.impactedCode|
    requires forall k :: 0 <= k < |fixes| ==> fixes[k] == AF.GenerateFix(b.impactedCode[k], llmAvailable, replies[k], decode)
    ensures fixes == FixesOfImpact(b, llmAvailable, reply, decode)
  {
  }

  lemma FixesForSnoc(bs: seq<IM.BreakingChangeImpact>, i: nat, llmAvailable: bool,
                     reply: IM.ImpactedCode -> Option<string>, decode: string -> Option<AF.LlmReply>)
    requires i < |bs|
    ensures FixesFor(bs[..i + 1], llmAvailable, reply, decode) ==
      FixesFor(bs[..i], llmAvailable, reply, decode) + FixesOfImpact(bs[i], llmAvailable, reply, decode)
  {
    assert bs[..i + 1][..i] == bs[..i];
  }

  /** The fixes of the first `i` impacts of a dict, in key order. */
  function FixesUpTo(impacts: Dict<string, IM.BreakingChangeImpact>, i: nat, llmAvailable: bool,
                     reply: IM.ImpactedCode -> Option<string>, decode: string -> Option<AF.LlmReply>): seq<AF.AIFix>
    requires impacts.Valid() && i <= |impacts.keys|
  {
    if i == 0 then []
    else
      assert impacts.keys[i - 1] in impacts.keys;
      FixesUpTo(impacts, i - 1, llmAvailable, reply, decode) +
        FixesOfImpact(impacts.vals[impacts.keys[i - 1]], llmAvailable, reply, decode)
  }

  lemma FixesUpToNext(impacts: Dict<string, IM.BreakingChangeImpact>, i: nat, llmAvailable: bool,
                      reply: IM.ImpactedCode -> Option<string>, decode: string -> Option<AF.LlmReply>)
    requires impacts.Valid() && i < |impacts.keys|
    ensures impacts.keys[i] in impacts.vals
    ensures FixesUpTo(impacts, i + 1, llmAvailable, reply, decode) ==
      FixesUpTo(impacts, i, llmAvailable, reply, decode) + FixesOfImpact(impacts.vals[impacts.keys[i]], llmAvailable, reply, decode)
  {
    assert impacts.keys[i] in impacts.keys;
  }

  lemma {:induction false} FixesUpToIs(impacts: Dict<string, IM.BreakingChangeImpact>, i: nat, llmAvailable: bool,
                                       reply: IM.ImpactedCode -> Option<string>, decode: string -> Option<AF.LlmReply>)
    requires impacts.Valid() && i <= |impacts.keys|
    ensures FixesUpTo(impacts, i, llmAvailable, reply, decode) == FixesFor(impacts.Values()[..i], llmAvailable, reply, decode)
  {
    if i > 0 {
      FixesUpToIs(impacts, i - 1, llmAvailable, reply, decode);
      FixesForSnoc(impacts.Values(), i - 1, llmAvailable, reply, decode);
    }
  }

  /** One fix per impacted location, and each fix is about one of them. */
  lemma {:induction false} FixesForMeaning(bs: seq<IM.BreakingChangeImpact>, llmAvailable: bool,
                                           reply: IM.ImpactedCode -> Option<string>, decode: string -> Option<AF.LlmReply>)
    ensures |FixesFor(bs, llmAvailable, reply, decode)| == IM.CountCodes(bs)
    ensures forall f :: f in FixesFor(bs, llmAvailable, reply, decode) ==>
      exists k, c :: 0 <= k < |bs| && c in bs[k].impactedCode && f.filePath == c.filePath && f.lineNumber == c.lineNumber
    decreases |bs|
  {
    if bs != [] {
      var n := |bs| - 1;
      FixesForMeaning(bs[..n], llmAvailable, reply, decode);
      var prev := FixesFor(bs[..n], llmAvailable, reply, decode);
      var last := FixesOfImpact(bs[n], llmAvailable, reply, decode);
      forall f: AF.AIFix | f in prev + last
        ensures exists k, c :: 0 <= k < |bs| && c in bs[k].impactedCode && f.filePath == c.filePath && f.lineNumber == c.lineNumber
      {
        if f in prev {
          var k, c :| 0 <= k < n && c in bs[..n][k].impactedCode && f.filePath == c.filePath && f.lineNumber == c.lineNumber;
          assert bs[..n][k] == bs[k];
        } else {
          var i :| 0 <= i < |last| && last[i] == f;
          var c := bs[n].impactedCode[i];
          AF.GenerateFixLocation(c, llmAvailable, reply(c), decode);
          assert c in bs[n].impactedCode;
        }
      }
    }
  }

  /** `_generate_final_report` over the kept state; the two counts come
      from the engine's filters over the same records. */
  function FinalReportOf(s: State, relativeTo: string -> string): Report
    requires s.repoPath.Some?
  {
    Final(s.repoPath.value, s.dependencies.Size(), |s.updates|,
      |Seqs.Filter(s.updates, SE.IsBreakingRecord)|, |Seqs.Filter(s.updates, SE.IsOutdatedRecord)|,
      ResultsOf(s.updates, s.impactReports, s.aiFixes, relativeTo))
  }

  /** `run(repo_input)`: the new state and the report. */
  function Pipeline(input: string, env: Environment, llmAvailable: bool, s: State): (State, Report)
    requires OrderFits(env)
  {
    var fetched := RF.Fetch(env.cacheDir, input, env.local, env.cached, env.clone);
    RF.FetchMeaning(env.cacheDir, input, env.local, env.cached, env.clone);
    if !fetched.success then (s, Failed(fetched.error))
    else
      var deps := DP.Merge(DP.AllDeps(env.requirements));
      var s1 := s.(repoPath := fetched.repoPath, dependencies := deps);
      if deps.Size() == 0 then (s1, Failed(Some(NoDependenciesError)))
      else Analyzed(s1, env, llmAvailable)
  }

  /** Steps 3 to 8, once a repository is fetched and its dependencies are
      parsed: load, fetch the latest releases, join, and, when a package
      is breaking, scan, map and fix; then the final report. */
  function Analyzed(s1: State, env: Environment, llmAvailable: bool): (State, Report)
    requires s1.repoPath.Some? && forall p :: p in env.order ==> p in s1.dependencies.vals
  {
    var updates := UpdatesOf(s1.dependencies, env.order, env.latest);
    var breaking := Seqs.Filter(updates, SE.IsBreakingRecord);
    var s2 := s1.(updates := updates);
    if breaking == [] then (s2, FinalReportOf(s2, env.relativeTo))
    else
      var s3 := Scanned(s2, breaking, env, llmAvailable);
      (s3, FinalReportOf(s3, env.relativeTo))
  }

  /** Steps 5 to 7: scan for the breaking packages, map their impacts, and
      append one fix per impacted location. */
  function Scanned(s: State, breaking: seq<SE.PackageUpdate>, env: Environment, llmAvailable: bool): State {
    var usage := CS.BuildReports(CS.AllUsages(CS.NormalizedTargets(Names(breaking)), env.sources));
    var impacts := IM.MapAll(breaking, usage);
    IM.MapAllValid(breaking, usage);
    s.(usageReports := usage, impactReports := impacts,
       aiFixes := s.aiFixes + FixesFor(impacts.Values(), llmAvailable, env.reply, env.decode))
  }

  // ---------------------------------------------------------------------
  // What a run promises

  /** A batch never holds more updates than there are packages to ask for. */
  lemma {:induction false} BatchOfAtMost(order: seq<string>, fetched: seq<Option<string>>, deps: map<string, string>)
    requires |order| == |fetched|
    requires forall p :: p in order ==> p in deps
    ensures |SE.BatchOf(order, fetched, deps)| <= |order|
    decreases |order|
  {
    if order != [] {
      var n := |order| - 1;
      assert forall p :: p in order[..n] ==> p in order;
      BatchOfAtMost(order[..n], fetched[..n], deps);
    }
  }

  /** Joined records are `breaking` exactly when they are flagged so. */
  lemma JoinAllConsistent(batch: seq<SE.BatchUpdate>)
    ensures forall u :: u in SE.JoinAll(batch) ==> (u.status == Breaking <==> u.isBreaking)
  {
    forall u | u in SE.JoinAll(batch)
      ensures u.status == Breaking <==> u.isBreaking
    {
      var i :| 0 <= i < |batch| && SE.JoinAll(batch)[i] == u;
      SE.JoinConsistent(batch[i]);
    }
  }

  /** A run fails exactly when the fetch fails or no dependency is found; a
      failed fetch changes nothing, and every failure carries a message. */
  lemma PipelineFailures(input: string, env: Environment, llmAvailable: bool, s: State)
    requires OrderFits(env)
    ensures var f := RF.Fetch(env.cacheDir, input, env.local, env.cached, env.clone);
      var deps := DP.Merge(DP.AllDeps(env.requirements));
      var (s2, r) := Pipeline(input, env, llmAvailable, s);
      && (r.Failed? <==> !f.success || deps.Size() == 0)
      && (r.Failed? ==> r.error.Some?)
      && (!f.success ==> s2 == s)
      && (f.success && deps.Size() == 0 ==>
            r.error == Some(NoDependenciesError) && s2 == s.(repoPath := f.repoPath, dependencies := deps))
  {
    RF.FetchMeaning(env.cacheDir, input, env.local, env.cached, env.clone);
  }

  /** Without a breaking update the scan, mapping and fix steps are skipped:
      their state is kept, and since no record has status `breaking` no
      kept impact report reaches the report. */
  lemma PipelineNoBreaking(input: string, env: Environment, llmAvailable: bool, s: State)
    requires OrderFits(env)
    requires RF.Fetch(env.cacheDir, input, env.local, env.cached, env.clone).success
    requires DP.Merge(DP.AllDeps(env.requirements)).Size() > 0
    requires Seqs.Filter(UpdatesOf(DP.Merge(DP.AllDeps(env.requirements)), env.order, env.latest), SE.IsBreakingRecord) == []
    ensures var (s2, r) := Pipeline(input, env, llmAvailable, s);
      && s2.usageReports == s.usageReports && s2.impactReports == s.impactReports && s2.aiFixes == s.aiFixes
      && r.Final? && r.breakingChanges == 0
      && forall i :: 0 <= i < |r.results| ==> r.results[i].impactedFiles == []
  {
    var deps := DP.Merge(DP.AllDeps(env.requirements));
    var batch := SE.BatchOf(env.order, Fetched(env.order, env.latest), LoadedVersions(deps));
    var updates := UpdatesOf(deps, env.order, env.latest);
    JoinAllConsistent(batch);
    var r := Pipeline(input, env, llmAvailable, s).1;
    forall i | 0 <= i < |r.results|
      ensures r.results[i].impactedFiles == []
    {
      assert updates[i] in updates;
      assert updates[i] !in Seqs.Filter(updates, SE.IsBreakingRecord);
    }
  }

  /** The report's counts: one result per update, no more updates than
      dependencies, and breaking and outdated records never overlap. */
  lemma PipelineCounts(input: string, env: Environment, llmAvailable: bool, s: State)
    requires OrderFits(env)
    ensures var r := Pipeline(input, env, llmAvailable, s).1;
      r.Final? ==>
        && |r.results| == r.totalUpdates
        && r.breakingChanges + r.outdatedPackages <= r.totalUpdates <= r.totalDependencies
  {
    PipelineFinal(input, env, llmAvailable, s);
    var (s', r) := Pipeline(input, env, llmAvailable, s);
    if r.Final? {
      UpdatesCounts(env);
      FinalReportCounts(s', env.relativeTo);
    }
  }

  /** A final report is the report of the state the run leaves, whose
      updates are those of the merged dependencies. */
  lemma PipelineFinal(input: string, env: Environment, llmAvailable: bool, s: State)
    requires OrderFits(env)
    ensures var (s', r) := Pipeline(input, env, llmAvailable, s);
      r.Final? ==>
        && s'.repoPath.Some? && r == FinalReportOf(s', env.relativeTo)
        && s'.dependencies == DP.Merge(DP.AllDeps(env.requirements))
        && s'.updates == UpdatesOf(s'.dependencies, env.order, env.latest)
  {
    var f := RF.Fetch(env.cacheDir, input, env.local, env.cached, env.clone);
    RF.FetchMeaning(env.cacheDir, input, env.local, env.cached, env.clone);
    var deps := DP.Merge(DP.AllDeps(env.requirements));
    if f.success && deps.Size() > 0 {
      var updates := UpdatesOf(deps, env.order, env.latest);
      var breaking := Seqs.Filter(updates, SE.IsBreakingRecord);
      var s2 := s.(repoPath := f.repoPath, dependencies := deps, updates := updates);
      if breaking != [] {
        var s3 := Scanned(s2, breaking, env, llmAvailable);
        assert s3.repoPath == s2.repoPath && s3.dependencies == deps && s3.updates == updates;
        assert Pipeline(input, env, llmAvailable, s) == (s3, FinalReportOf(s3, env.relativeTo));
      } else {
        assert Pipeline(input, env, llmAvailable, s) == (s2, FinalReportOf(s2, env.relativeTo));
      }
    }
  }

  /** No more updates than dependencies, and no record both breaking and
      outdated. */
  lemma UpdatesCounts(env: Environment)
    requires OrderFits(env)
    ensures var deps := DP.Merge(DP.AllDeps(env.requirements));
      var updates := UpdatesOf(deps, env.order, env.latest);
      && |updates| <= deps.Size()
      && forall x :: x in updates ==> !(SE.IsBreakingRecord(x) && SE.IsOutdatedRecord(x))
  {
    var deps := DP.Merge(DP.AllDeps(env.requirements));
    DP.MergeValid(DP.AllDeps(env.requirements));
    var batch := SE.BatchOf(env.order, Fetched(env.order, env.latest), LoadedVersions(deps));
    BatchOfAtMost(env.order, Fetched(env.order, env.latest), LoadedVersions(deps));
    IM.NoDupCard(env.order);
    IM.NoDupCard(deps.keys);
    assert (set x | x in env.order) == (set x | x in deps.keys);
    JoinAllConsistent(batch);
  }

  /** The final report's counts over a state whose records are consistent. */
  lemma FinalReportCounts(s: State, relativeTo: string -> string)
    requires s.repoPath.Some? && |s.updates| <= s.dependencies.Size()
    requires forall x :: x in s.updates ==> !(SE.IsBreakingRecord(x) && SE.IsOutdatedRecord(x))
    ensures var r := FinalReportOf(s, relativeTo);
      && |r.results| == r.totalUpdates
      && r.breakingChanges + r.outdatedPackages <= r.totalUpdates <= r.totalDependencies
  {
    Seqs.FilterDisjointCount(s.updates, SE.IsBreakingRecord, SE.IsOutdatedRecord);
  }

  /** After the scan: one impact report per breaking package the scan found
      in use, the fixes of this run appended after the kept ones, one per
      impacted location, each about one of those locations. */
  lemma ScannedMeaning(s: State, breaking: seq<SE.PackageUpdate>, env: Environment, llmAvailable: bool)
    ensures var s2 := Scanned(s, breaking, env, llmAvailable);
      && s2.impactReports.Valid()
      && (forall p :: p in s2.impactReports.vals <==> p in s2.usageReports.vals && p in Names(breaking))
      && |s2.aiFixes| == |s.aiFixes| + IM.CountCodes(s2.impactReports.Values())
      && s2.aiFixes[..|s.aiFixes|] == s.aiFixes
      && (forall f :: f in s2.aiFixes[|s.aiFixes|..] ==>
            exists k, c :: 0 <= k < |s2.impactReports.Values()| && c in s2.impactReports.Values()[k].impactedCode &&
              f.filePath == c.filePath && f.lineNumber == c.lineNumber)
  {
    var usage := CS.BuildReports(CS.AllUsages(CS.NormalizedTargets(Names(breaking)), env.sources));
    var impacts := IM.MapAll(breaking, usage);
    IM.MapAllValid(breaking, usage);
    forall p
      ensures p in impacts.vals <==> p in usage.vals && p in Names(breaking)
    {
      IM.MapAllKeys(breaking, usage, p);
      if p in Names(breaking) {
        var i :| 0 <= i < |breaking| && Names(breaking)[i] == p;
        assert breaking[i].packageName == p;
      }
      if p in impacts.vals {
        var i :| 0 <= i < |breaking| && breaking[i].packageName == p;
        assert Names(breaking)[i] == p;
      }
    }
    var fixes := FixesFor(impacts.Values(), llmAvailable, env.reply, env.decode);
    FixesForMeaning(impacts.Values(), llmAvailable, env.reply, env.decode);
    assert (s.aiFixes + fixes)[..|s.aiFixes|] == s.aiFixes;
    assert (s.aiFixes + fixes)[|s.aiFixes|..] == fixes;
  }

  /** With breaking updates the run scans and reports them all as breaking. */
  lemma PipelineBreaking(input: string, env: Environment, llmAvailable: bool, s: State)
    requires OrderFits(env)
    requires RF.Fetch(env.cacheDir, input, env.local, env.cached, env.clone).success
    requires DP.Merge(DP.AllDeps(env.requirements)).Size() > 0
    requires Seqs.Filter(UpdatesOf(DP.Merge(DP.AllDeps(env.requirements)), env.order, env.latest), SE.IsBreakingRecord) != []
    ensures var deps := DP.Merge(DP.AllDeps(env.requirements));
      var breaking := Seqs.Filter(UpdatesOf(deps, env.order, env.latest), SE.IsBreakingRecord);
      var s1 := s.(repoPath := RF.Fetch(env.cacheDir, input, env.local, env.cached, env.clone).repoPath,
                   dependencies := deps, updates := UpdatesOf(deps, env.order, env.latest));
      var (s2, r) := Pipeline(input, env, llmAvailable, s);
      && s2 == Scanned(s1, breaking, env, llmAvailable)
      && r.Final? && r.breakingChanges == |breaking| > 0
  {
  }

  // ---------------------------------------------------------------------
  // The orchestrator

  class DeprecationIntelligenceSystem {
    const depParser: DP.DependencyParser
    const streamEngine: SE.PathwayStreamEngine
    const impactMapper: IM.ImpactMapper
    const aiFixer: AF.AIFixer
    /** Created afresh by each run that scans. */
    var codeScanner: CS.CodeScanner?

    var repoPath: Option<string>
    var dependencies: Dict<string, DP.Dependency>
    var updates: seq<SE.PackageUpdate>
    var usageReports: Dict<string, CS.PackageUsageReport>
    var impactReports: Dict<string, IM.BreakingChangeImpact>
    var aiFixes: seq<AF.AIFix>

    /** `__init__(openai_api_key)`: the fixer uses the default model. */
    constructor (apiKey: Option<string>, environmentKey: Option<string>, clientInstalled: bool)
      ensures Valid() && CurrentState() == InitialState()
      ensures aiFixer.llmAvailable <==> clientInstalled && aiFixer.apiKey.Some? && aiFixer.apiKey.value != ""
      ensures codeScanner == null
    {
      depParser := new DP.DependencyParser();
      streamEngine := new SE.PathwayStreamEngine();
      impactMapper := new IM.ImpactMapper();
      aiFixer := new AF.AIFixer(apiKey, environmentKey, "gpt-4", clientInstalled);
      codeScanner := null;
      repoPath := None;
      dependencies := Empty();
      updates := [];
      usageReports := Empty();
      impactReports := Empty();
      aiFixes := [];
    }

    function CurrentState(): State
      reads this
    {
      State(repoPath, dependencies, updates, usageReports, impactReports, aiFixes)
    }

    /** `updates` are the engine's joined records (none before any fetch). */
    ghost predicate Valid()
      reads this, streamEngine
    {
      if streamEngine.batchUpdates.None? then updates == []
      else updates == SE.JoinAll(streamEngine.batchUpdates.value)
    }

    /** `_generate_final_report`. */
    method GenerateFinalReport(relativeTo: string -> string) returns (report: Report)
      requires Valid() && repoPath.Some?
      ensures report == FinalReportOf(CurrentState(), relativeTo)
    {
      var results := PackageResults(relativeTo);
      var breaking := streamEngine.GetBreakingPackages();
      var outdated := streamEngine.GetOutdatedPackages();
      report := Final(repoPath.value, dependencies.Size(), |updates|, |breaking|, |outdated|, results);
    }

    /** The update loop of `_generate_final_report`. */
    method PackageResults(relativeTo: string -> string) returns (results: seq<PackageResult>)
      ensures results == ResultsOf(updates, impactReports, aiFixes, relativeTo)
    {
      results := [];
      var i := 0;
      while i < |updates|
        invariant 0 <= i <= |updates|
        invariant |results| == i
        invariant forall k :: 0 <= k < i ==> results[k] == PackageResultOf(updates[k], impactReports, aiFixes, relativeTo)
      {
        var packageResult := PackageResultFor(updates[i], relativeTo);
        results := results + [packageResult];
        i := i + 1;
      }
    }

    /** The body of the update loop of `_generate_final_report`. */
    method PackageResultFor(update: SE.PackageUpdate, relativeTo: string -> string) returns (r: PackageResult)
      ensures r == PackageResultOf(update, impactReports, aiFixes, relativeTo)
    {
      var impactedFiles: seq<FileImpact> := [];
      if update.status == Breaking {
        var impactReport := impactReports.Get(update.packageName);
        if impactReport.Some? {
          impactedFiles := FileImpactsOf(impactReport.value.impactedCode, relativeTo);
        }
      }
      r := PackageResult(update.packageName, update.currentVersion, update.latestVersion, update.status, impactedFiles);
    }

    /** The file loop of `_generate_final_report` for one impact report. */
    method FileImpactsOf(codes: seq<IM.ImpactedCode>, relativeTo: string -> string) returns (impactedFiles: seq<FileImpact>)
      ensures impactedFiles == FileImpacts(codes, aiFixes, relativeTo)
    {
      var byFile := IM.GroupCodesByFile(codes);
      IM.GroupByFileValid(codes);
      GroupNonEmpty(codes);
      impactedFiles := [];
      var j := 0;
      while j < |byFile.keys|
        invariant 0 <= j <= |byFile.keys|
        invariant |impactedFiles| == j
        invariant forall k :: 0 <= k < j ==> impactedFiles[k] == FileImpacts(codes, aiFixes, relativeTo)[k]
      {
        var filePath := byFile.keys[j];
        assert filePath in byFile.vals;
        var fileCodes := byFile.vals[filePath];
        var impacts := seq(|fileCodes|, k requires 0 <= k < |fileCodes| => ImpactLineOf(fileCodes[k]));
        var aiFix := FirstFix(aiFixes, filePath, fileCodes[0].lineNumber);
        var fileImpact := FileImpact(relativeTo(filePath), impacts,
                                     if aiFix.Some? then Some(FixInfoOf(aiFix.value)) else None);
        impactedFiles := impactedFiles + [fileImpact];
        j := j + 1;
      }
    }

    /** Steps 3 and 4 on the engine: the joined records and the breaking ones. */
    method LoadAndJoin(env: Environment) returns (joined: seq<SE.PackageUpdate>, breaking: seq<SE.PackageUpdate>)
      requires dependencies.Valid() && dependencies.Size() > 0
      requires NoDup(env.order) && forall p :: p in env.order <==> p in dependencies.vals
      modifies streamEngine
      ensures streamEngine.batchUpdates.Some? && joined == SE.JoinAll(streamEngine.batchUpdates.value)
      ensures joined == UpdatesOf(dependencies, env.order, env.latest)
      ensures breaking == Seqs.Filter(joined, SE.IsBreakingRecord)
    {
      var versions := VersionsOf(dependencies);
      streamEngine.LoadRepoDependencies(versions);
      assert streamEngine.repoDependencies.vals == LoadedVersions(dependencies) by {
        assert streamEngine.repoDependencies.vals.Keys == set k | k in dependencies.keys;
      }
      var err := streamEngine.FetchPypiUpdates(env.order, Fetched(env.order, env.latest));
      var r := streamEngine.PerformStreamingJoin();
      joined := r.value;
      breaking := streamEngine.GetBreakingPackages();
    }

    /** Steps 5 to 7 on the system's state. */
    method ScanMapAndFix(breaking: seq<SE.PackageUpdate>, env: Environment)
      modifies this, impactMapper
      ensures CurrentState() == Scanned(old(CurrentState()), breaking, env, aiFixer.llmAvailable)
    {
      // Step 5: scan for the breaking packages.
      var scanner := new CS.CodeScanner(Names(breaking));
      codeScanner := scanner;
      usageReports := scanner.ScanDirectory(env.sources);

      // Step 6: map.
      impactReports := impactMapper.MapImpacts(breaking, usageReports);
      IM.MapAllValid(breaking, usageReports);

      // Step 7: fixes, impact after impact.
      AppendFixes(impactReports, env);
    }

    /** `generate_fixes_for_impact` with the model's replies taken from the
        environment. */
    method FixesForImpact(impact: IM.BreakingChangeImpact, env: Environment) returns (fixes: seq<AF.AIFix>)
      ensures fixes == FixesOfImpact(impact, aiFixer.llmAvailable, env.reply, env.decode)
    {
      var codes := impact.impactedCode;
      var replies := seq(|codes|, k requires 0 <= k < |codes| => env.reply(codes[k]));
      fixes := aiFixer.GenerateFixesForImpact(impact, replies, env.decode);
      FixesOfImpactIs(impact, aiFixer.llmAvailable, env.reply, env.decode, replies, fixes);
    }

    /** The fix loop of step 7: `ai_fixes` is extended by the fixes of each
        impact in turn. */
    method AppendFixes(impacts: Dict<string, IM.BreakingChangeImpact>, env: Environment)
      requires impacts.Valid()
      modifies this
      ensures CurrentState() == old(CurrentState()).(aiFixes :=
        old(aiFixes) + FixesFor(impacts.Values(), aiFixer.llmAvailable, env.reply, env.decode))
    {
      var added := NewFixes(impacts, env);
      aiFixes := aiFixes + added;
    }

    /** The fixes the loop of step 7 extends `ai_fixes` with, impact after
        impact. */
    method NewFixes(impacts: Dict<string, IM.BreakingChangeImpact>, env: Environment) returns (added: seq<AF.AIFix>)
      requires impacts.Valid()
      ensures added == FixesFor(impacts.Values(), aiFixer.llmAvailable, env.reply, env.decode)
    {
      var llm := aiFixer.llmAvailable;
      added := [];
      var i := 0;
      while i < |impacts.keys|
        invariant 0 <= i <= |impacts.keys|
        invariant added == FixesUpTo(impacts, i, llm, env.reply, env.decode)
      {
        FixesUpToNext(impacts, i, llm, env.reply, env.decode);
        var fixes := FixesForImpact(impacts.vals[impacts.keys[i]], env);
        added := added + fixes;
        i := i + 1;
      }
      FixesUpToIs(impacts, i, llm, env.reply, env.decode);
      assert impacts.Values()[..i] == impacts.Values();
    }

    /** `run(repo_input)`. */
    method Run(input: string, env: Environment) returns (report: Report)
      requires Valid() && OrderFits(env)
      modifies this, depParser, streamEngine, impactMapper
      ensures Valid()
      ensures (CurrentState(), report) == Pipeline(input, env, aiFixer.llmAvailable, old(CurrentState()))
    {
      // Step 1: fetch.
      var fetched := RF.Fetch(env.cacheDir, input, env.local, env.cached, env.clone);
      RF.FetchMeaning(env.cacheDir, input, env.local, env.cached, env.clone);
      if !fetched.success {
        return Failed(fetched.error);
      }
      repoPath := fetched.repoPath;

      // Step 2: parse.
      dependencies := depParser.ParseRepository(env.requirements);
      if dependencies.Size() == 0 {
        return Failed(Some(NoDependenciesError));
      }
      report := Analyze(env);
    }

    /** Steps 3 to 8 of `run`. */
    method Analyze(env: Environment) returns (report: Report)
      requires Valid() && repoPath.Some? && dependencies.Valid() && dependencies.Size() > 0
      requires NoDup(env.order) && forall p :: p in env.order <==> p in dependencies.vals
      modifies this, streamEngine, impactMapper
      ensures Valid()
      ensures (CurrentState(), report) == Analyzed(old(CurrentState()), env, aiFixer.llmAvailable)
    {
      // Steps 3 and 4: load, fetch the latest releases, join.
      var breaking;
      updates, breaking := LoadAndJoin(env);
      if breaking == [] {
        report := GenerateFinalReport(env.relativeTo);
        return;
      }
      ScanMapAndFix(breaking, env);
      report := GenerateFinalReport(env.relativeTo);
    }
  }
}
