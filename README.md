# Dependency deprecation and migration intelligence, modelled in Dafny

The system takes a repository, either a GitHub URL or a local path. It runs
seven steps:

1. It fetches the repository, from the cache or by cloning.
2. It parses the repository's requirements files into dependencies.
3. It asks PyPI for each package's latest release.
4. It classifies every version bump as `up-to-date`, `outdated`, `breaking`,
   `ahead` or `unknown`. A bump is breaking when the major version goes up.
5. It scans the Python sources for uses of the breaking packages.
6. It maps each breaking change to the code it impacts.
7. It proposes a fix for every impacted location, written by a language
   model or taken from a deterministic fallback.

The final report groups the impacted locations by file and attaches the
first fix found for each file.

Modules follow the source files:

| Dafny module | source | form |
|---|---|---|
| `Versions` | `VersionChecker` in core/pathway_stream.py | functions and lemmas |
| `Broadcaster` | `EventBroadcaster` in core/pathway_stream.py | classes with bounded client queues |
| `PollSource` | one cycle of `PyPIStreamSource.generate_events` | a class whose cycle method is proved against `Cycle` |
| `StreamEngine` | `PathwayStreamEngine` batch mode | a class proved against `BatchOf`, `JoinAll` and `LoadedUpTo` |
| `CodeScanner` | core/code_scanner.py | an AST datatype, the walk as `Walk`, and the `ASTVisitor` and `CodeScanner` classes proved against it |
| `ImpactMapper` | core/impact_mapper.py | `MapAll`, `GroupByFile`, aggregations, and the `ImpactMapper` class |
| `AIFixer` | core/ai_fixer.py | fallback fix, fence stripping, and the `AIFixer` class |
| `DepParser` | core/dep_parser.py | a hand-written matcher of the requirement pattern, name normalisation, and the `DependencyParser` class |
| `RepoFetcher` | core/repo_fetcher.py | repository-name extraction and the fetch decision, as functions |
| `App` | app.py | the whole run as `Pipeline`, and the `DeprecationIntelligenceSystem` class proved against it |

`Wrappers`, `Strs`, `Dicts`, `Seqs` and `Sorting` are helpers:

- `Strs` gives Python string operations their meaning.
- `Dicts` is an insertion-ordered dictionary. Python dict order decides the
  order of reports and which entry a merge keeps.
- `Seqs` and `Sorting` hold filters, `Somes`, and sortedness.

A Python set that the code iterates over is a duplicate-free sequence. Its
order stands for the hash iteration order and is an input.

Inputs from the outside world are parameters. This covers:

- the file system facts;
- `git`;
- the PyPI answer for each package;
- the language model's reply and `json.loads`;
- the parsed syntax tree of each source file;
- `Path.relative_to`;
- the clock.

In `App` these are gathered in an `Environment`.

Where the code and its written description disagree, the model follows the
code:

- `import pkg as p` followed by `p.foo()` records three usages, not two.
  They are the import, a call and an attribute access, because the generic
  visit of a call reaches its function. The `api_element` of the call and
  the attribute is the local name `p.foo`.
- A poll cycle yields one event for every package fetched successfully,
  whether or not its version changed. Only a changed version is broadcast
  as `package_update`.
- An unclosed `` ```json `` block loses its last character. `find` returns
  -1, and the slice `[start:-1]` cuts the character off.
- The scanner normalises its targets to lower case with `_` turned into
  `-`, but compares them with module names as written. A target such as
  `typing_extensions` therefore never matches `import typing_extensions`.
- `ai_fixes` is never cleared, so it accumulates across runs. The report
  picks the oldest fix for a line.

## Model

| member | source | states |
|---|---|---|
| Versions.ParseFormat | core/pathway_stream.py:218-224 | parsing the canonical spelling of a release gives that release back |
| Versions.ParseVersion | core/pathway_stream.py:218-224 | definition of `parse_version`; contract in Versions.ParseFormat and Versions.ParsePlaceholder |
| Versions.CompareZeroIff | core/pathway_stream.py:264 | versions compare equal exactly when they agree at every index once padded with zeros |
| Versions.CompareAntisymmetric | core/pathway_stream.py:264-272 | swapping the operands negates the comparison |
| Versions.CompareTransitive | core/pathway_stream.py:266 | "older than" is transitive |
| Versions.BreakingIsNewer | core/pathway_stream.py:227-247 | a breaking change needs both versions to parse, and the latest must be newer |
| Versions.IsBreakingChange | core/pathway_stream.py:227-247 | definition of `is_breaking_change`; contract in Versions.BreakingIsNewer and Versions.StatusBreakingIff |
| Versions.StatusBreakingIff | core/pathway_stream.py:250-274 | `compare_versions` says `breaking` exactly when `is_breaking_change` holds |
| Versions.StatusMeaning | core/pathway_stream.py:257-274 | the status is `unknown` iff a side does not parse, `up-to-date` iff the padded releases are equal, and `outdated` iff current is older without a major bump |
| Versions.CompareVersions | core/pathway_stream.py:250-274 | definition of `compare_versions`; contract in Versions.StatusMeaning and Versions.StatusBreakingIff |
| Versions.ParsePlaceholder | core/pathway_stream.py:326 | the placeholder "0.0.0" parses as release 0.0.0 |
| Versions.PlaceholderNeverAhead | core/pathway_stream.py:250-274 | the placeholder is never `ahead` of a parseable latest version |
| Broadcaster.ClientQueue.constructor | core/pathway_stream.py:37 | a new queue is empty |
| Broadcaster.ClientQueue.Take | core/pathway_stream.py:37 | taking returns the oldest event and removes it, or nothing from an empty queue |
| Broadcaster.NotFull | core/pathway_stream.py:64 | exactly the queues that are not full are kept, without duplicates |
| Broadcaster.RemoveFirst | core/pathway_stream.py:45-46 | removes one occurrence; the list is unchanged when the queue is absent |
| Broadcaster.EventBroadcaster.constructor | core/pathway_stream.py:31-33 | there are no clients and nothing has been broadcast |
| Broadcaster.EventBroadcaster.AddClient | core/pathway_stream.py:35-40 | a fresh empty queue is appended and returned |
| Broadcaster.EventBroadcaster.RemoveClient | core/pathway_stream.py:42-46 | the queue is no longer listed; removing an unlisted queue changes nothing |
| Broadcaster.EventBroadcaster.Broadcast | core/pathway_stream.py:48-71 | full queues are unsubscribed and keep their items; every remaining queue gets exactly the one event; no queue exceeds capacity 100 |
| Broadcaster.Deliver | core/pathway_stream.py:67-71 | each listed queue gains exactly the event |
| Broadcaster.LossyDelivery | core/pathway_stream.py:62-71 | a client that never reads gets the first 100 of n events and is then unsubscribed; a client that reads gets all n |
| PollSource.CacheAfterCycle | core/pathway_stream.py:155-171 | after a cycle the cache holds each fetched version; entries for failed or empty fetches are untouched |
| PollSource.Cycle | core/pathway_stream.py:155-184 | definition of one pass of the per-package loop; contract in PollSource.CacheAfterCycle, PollSource.UpdatedIffChanged and PollSource.EventsAfterCycle |
| PollSource.UpdatedIffChanged | core/pathway_stream.py:158-181 | a `package_update` names a package exactly when its fetched version differed from the cached one |
| PollSource.UpdatePayloads | core/pathway_stream.py:162-181 | each update names a fetched package, carries the version now cached, and is a first fetch iff the package had no cache entry |
| PollSource.UpdateCount | core/pathway_stream.py:162-181 | there are as many updates as packages whose version changed |
| PollSource.EventsAfterCycle | core/pathway_stream.py:155-203 | one yielded event per successful fetch, changed or not, and none for a failed fetch |
| PollSource.SecondCycleQuiet | core/pathway_stream.py:144-184 | repeating a cycle with the same answers broadcasts no update |
| PollSource.PyPIStreamSource.constructor | core/pathway_stream.py:104-117 | the source keeps its packages and broadcaster, and its cache starts empty |
| PollSource.PyPIStreamSource.HandleFetch | core/pathway_stream.py:156-191 | one package's cache update, broadcast and yield are one step of `Cycle` |
| PollSource.PyPIStreamSource.PollCycle | core/pathway_stream.py:144-203 | cache and yielded events are those of `Cycle`; the broadcaster's history gains `poll_start` and then one `package_update` per change |
| StreamEngine.EffectiveVersionMeaning | core/pathway_stream.py:314-326 | no dependency is loaded with an empty or "N/A" version; one without a usable version is never classified `ahead` of a parseable latest version; one with a version is classified by that version |
| StreamEngine.EffectiveVersion | core/pathway_stream.py:314-326 | definition of the version kept per dependency; contract in StreamEngine.EffectiveVersionMeaning |
| StreamEngine.BatchOfSound | core/pathway_stream.py:347-356 | every batch entry is a successfully fetched package with its loaded version |
| StreamEngine.BatchOf | core/pathway_stream.py:347-356 | definition of the batch a fetch builds; contract in StreamEngine.BatchOfSound, StreamEngine.BatchOfComplete and StreamEngine.BatchOfCount |
| StreamEngine.BatchOfComplete | core/pathway_stream.py:347-356 | every successfully fetched package has its batch entry |
| StreamEngine.BatchOfCount | core/pathway_stream.py:347-360 | the batch has one entry per successful fetch |
| StreamEngine.JoinConsistent | core/pathway_stream.py:384-400 | a joined record keeps name and versions, and its status is `breaking` iff it is flagged breaking |
| StreamEngine.JoinAll | core/pathway_stream.py:384-400 | definition of the join, one record per batch entry (its own ensures: same length); contract in StreamEngine.JoinConsistent |
| StreamEngine.BreakingOutdatedDisjoint | core/pathway_stream.py:404-428 | no record is both breaking and outdated |
| StreamEngine.LoadedUpToMeaning | core/pathway_stream.py:310-326 | loading keeps every key in order, each with its effective version |
| StreamEngine.PathwayStreamEngine.constructor | core/pathway_stream.py:287-300 | no dependencies are loaded and no batch exists |
| StreamEngine.PathwayStreamEngine.LoadRepoDependencies | core/pathway_stream.py:302-328 | every input key is loaded with its effective version; the batch is untouched |
| StreamEngine.PathwayStreamEngine.FetchPypiUpdates | core/pathway_stream.py:330-360 | fails exactly when nothing is loaded; otherwise the batch is `BatchOf` the fetched answers |
| StreamEngine.PathwayStreamEngine.PerformStreamingJoin | core/pathway_stream.py:362-402 | fails exactly when there is no batch; otherwise gives one joined record per batch entry, in order |
| StreamEngine.PathwayStreamEngine.GetBreakingPackages | core/pathway_stream.py:404-415 | [] before any fetch; afterwards exactly the joined records flagged breaking, in order |
| StreamEngine.PathwayStreamEngine.GetOutdatedPackages | core/pathway_stream.py:417-428 | [] before any fetch; afterwards exactly the joined records with status `outdated`, in order |
| CodeScanner.TargetOf | core/code_scanner.py:87-109 | an exact target wins; otherwise the result is a target that the name is a submodule of; None for "" or no match |
| CodeScanner.ContextMeaning | core/code_scanner.py:81-85 | an out-of-range line gives ""; a line with no surrounding space comes back as written |
| CodeScanner.Context | core/code_scanner.py:81-85 | definition of `_get_context`; contract in CodeScanner.ContextMeaning |
| CodeScanner.ExtractChain | core/code_scanner.py:200-219 | the name of an attribute chain is its parts joined with "." |
| CodeScanner.ExtractName | core/code_scanner.py:200-219 | definition of `_extract_name`; contract in CodeScanner.ExtractChain and CodeScanner.BaseOfChain |
| CodeScanner.BaseOfChain | core/code_scanner.py:155-162 | the base looked up for a chain is its root name |
| CodeScanner.WalkSound | core/code_scanner.py:111-198 | the walk only appends usages, and each names a target package and the scanned file |
| CodeScanner.Walk | core/code_scanner.py:111-198 | definition of the visitor walk; contract in CodeScanner.WalkSound, CodeScanner.NoImportNoUsage and CodeScanner.RecordRefMeaning |
| CodeScanner.NoImportNoUsage | core/code_scanner.py:152-198 | a tree without imports records nothing |
| CodeScanner.RelativeImportIgnored | core/code_scanner.py:131-150 | `from . import x` records and binds nothing |
| CodeScanner.AliasedCallExample | core/code_scanner.py:152-198 | `import pkg as p; p.foo()` records an import, a call and an attribute usage |
| CodeScanner.DottedImportGap | core/code_scanner.py:111-175 | after `import a.b` with no alias, `a.b.f()` is not recorded |
| CodeScanner.RecordRefMeaning | core/code_scanner.py:152-198 | a call or attribute is recorded iff its name is non-empty and its first dotted component is bound to a module of a target package; the usage names that package and the local dotted name; otherwise the state is unchanged |
| CodeScanner.NormalizeTargetIdempotent | core/code_scanner.py:240 | normalising is idempotent and leaves no `_` and no upper-case letter |
| CodeScanner.NormalizedTargetsMeaning | core/code_scanner.py:240 | the targets are exactly the normalised names, each once |
| CodeScanner.FileUsagesSound | core/code_scanner.py:243-273 | a file's usages name a target and that file; a file that failed to parse gives [] |
| CodeScanner.ReportsMeaning | core/code_scanner.py:313-323 | there is a report exactly for each package with a usage, holding all its usages in order, their count and their files |
| CodeScanner.ReportInvariants | core/code_scanner.py:313-323 | in every report `total_usages == len(usages)`, `files_affected` is the set of their files, and the usages are non-empty |
| CodeScanner.ExportSummary | core/code_scanner.py:342-369 | one summary per report, in order, counted in `total_packages_found` |
| CodeScanner.SummaryOfScan | core/code_scanner.py:342-369 | after a scan each summarised package has at least one usage, and its count matches its list |
| CodeScanner.ASTVisitor.constructor | core/code_scanner.py:63-75 | no usages, no imported modules, no source lines |
| CodeScanner.ASTVisitor.SetSourceLines | core/code_scanner.py:77-79 | sets the lines and leaves the walk state alone |
| CodeScanner.ASTVisitor.IsTargetPackage | core/code_scanner.py:87-109 | the loop over targets returns `TargetOf` |
| CodeScanner.ASTVisitor.Visit | core/code_scanner.py:58-198 | visiting a node updates usages and aliases exactly as `Walk` |
| CodeScanner.ASTVisitor.GenericVisit | core/code_scanner.py:129 | visiting children in order is `WalkSeq` |
| CodeScanner.ASTVisitor.VisitImport | core/code_scanner.py:111-129 | binds each alias to its module and records matching imports, as `Walk` |
| CodeScanner.ASTVisitor.VisitImportFrom | core/code_scanner.py:131-150 | binds each alias to `module.name` and records matching imports, as `Walk` |
| CodeScanner.ASTVisitor.RecordIfImported | core/code_scanner.py:157-173 | records a usage only when the base is bound to a target, as `RecordRef` |
| CodeScanner.ASTVisitor.VisitCall | core/code_scanner.py:152-175 | records the call, then visits the function and the arguments, as `Walk` |
| CodeScanner.ASTVisitor.VisitAttribute | core/code_scanner.py:177-198 | records the attribute, then visits its value, as `Walk` |
| CodeScanner.CodeScanner.constructor | core/code_scanner.py:233-241 | the targets are the normalised names; there are no reports |
| CodeScanner.CodeScanner.ScanFile | core/code_scanner.py:243-273 | a file's usages are those of the walk of its tree |
| CodeScanner.CodeScanner.ScanDirectory | core/code_scanner.py:275-327 | the reports are rebuilt from scratch out of all files' usages |
| CodeScanner.CodeScanner.ScanFiles | core/code_scanner.py:306-310 | all usages are the files' usages, file after file |
| CodeScanner.CodeScanner.RebuildReports | core/code_scanner.py:312-323 | the report loop builds `BuildReports` |
| CodeScanner.CodeScanner.AddToReports | core/code_scanner.py:314-323 | one usage creates or extends its package's report |
| CodeScanner.CodeScanner.GetPackageReportNormalizes | core/code_scanner.py:329-340 | a name and its normalised form find the same report |
| CodeScanner.CodeScanner.GetPackageReport | core/code_scanner.py:329-340 | definition of `get_package_report`; contract in CodeScanner.CodeScanner.GetPackageReportNormalizes |
| ImpactMapper.ImpactOfMeaning | core/impact_mapper.py:101-123 | one impacted location per usage, in order, with the update's package and versions; the file count is copied from the report |
| ImpactMapper.MapAllKeys | core/impact_mapper.py:88-125 | there is an impact exactly for each updated package that has a usage report |
| ImpactMapper.MapAll | core/impact_mapper.py:88-125 | definition of the `map_impacts` loop; contract in ImpactMapper.MapAllKeys, ImpactMapper.MapAllLastWins and ImpactMapper.MapAllCounts |
| ImpactMapper.MapAllLastWins | core/impact_mapper.py:125 | a later update for the same package overwrites the earlier impact |
| ImpactMapper.MapAllCounts | core/impact_mapper.py:122-125 | each impact's `total_impacts` is its number of locations, and it is keyed by its own package |
| ImpactMapper.FilesUpToMeaning | core/impact_mapper.py:151-154 | the collected files are exactly those of some impacted location |
| ImpactMapper.SumImpactsCountsCodes | core/impact_mapper.py:164 | the sum of `total_impacts` is the number of impacted locations |
| ImpactMapper.GroupByFileMeaning | core/impact_mapper.py:218-222 | each file's group is that file's locations in original order |
| ImpactMapper.GroupSizesSum | core/impact_mapper.py:218-222 | group sizes sum to the number of locations |
| ImpactMapper.TextSectionsFiles | core/impact_mapper.py:224-225 | the text report lists each impacted file once, sorted by path |
| ImpactMapper.TextSectionsCodes | core/impact_mapper.py:226 | within a file, lines are sorted by line number and are a permutation of that file's locations |
| ImpactMapper.SummaryTotalsAfterMapping | core/impact_mapper.py:164-169 | after mapping, `total_code_impacts` is the number of impacted locations |
| ImpactMapper.GetImpactReportAfterMapping | core/impact_mapper.py:132-142 | after mapping, a report is found exactly for a mapped package with usages, and it is that package's |
| ImpactMapper.ImpactMapper.GetImpactReport | core/impact_mapper.py:132-142 | definition of `get_impact_report`; contract in ImpactMapper.GetImpactReportAfterMapping |
| ImpactMapper.GroupCodesByFile | core/impact_mapper.py:218-222 | the grouping loop builds `GroupByFile` |
| ImpactMapper.AddToGroup | core/impact_mapper.py:220-222 | one location is appended to its file's group, which is created if absent |
| ImpactMapper.ImpactMapper.constructor | core/impact_mapper.py:72-74 | there are no impact reports |
| ImpactMapper.ImpactMapper.MapImpacts | core/impact_mapper.py:76-130 | the reports are reset and become `MapAll` of the updates and usage reports |
| ImpactMapper.ImpactMapper.BuildImpact | core/impact_mapper.py:101-123 | the loop over usages builds `ImpactOf` |
| ImpactMapper.ImpactMapper.GetAllImpactedFiles | core/impact_mapper.py:144-155 | strictly sorted, and exactly the files of all impacts |
| ImpactMapper.ImpactMapper.ExportSummary | core/impact_mapper.py:157-191 | counts packages, sums `total_impacts`, counts distinct files, and summarises each impact in order |
| AIFixer.FallbackFixedCode | core/ai_fixer.py:242 | the fallback code is a TODO header line followed by the original line, unchanged |
| AIFixer.FallbackFix | core/ai_fixer.py:212-245 | definition of `_generate_fallback_fix`; contract in AIFixer.FallbackFixedCode and AIFixer.AllFallbackAverage |
| AIFixer.NoFenceUnchanged | core/ai_fixer.py:182-194 | text without a fence is passed on unchanged |
| AIFixer.StripFences | core/ai_fixer.py:182-192 | definition of the fence stripping; contract in AIFixer.NoFenceUnchanged, AIFixer.JsonBlockRoundTrip, AIFixer.UnclosedJsonBlockDropsLast and AIFixer.PlainBlockRoundTrip |
| AIFixer.JsonBlockRoundTrip | core/ai_fixer.py:185-188 | a closed ```json block yields its stripped body |
| AIFixer.UnclosedJsonBlockDropsLast | core/ai_fixer.py:185-188 | an unclosed ```json block loses its last character |
| AIFixer.PlainBlockRoundTrip | core/ai_fixer.py:189-192 | a plain fenced block yields its stripped body |
| AIFixer.GenerateFixLocation | core/ai_fixer.py:80-245 | every fix copies package, versions, file, line and original code from the location |
| AIFixer.GenerateFix | core/ai_fixer.py:80-132 | definition of `generate_fix` and `_generate_llm_fix`; contract in AIFixer.GenerateFixLocation, AIFixer.GenerateFixFallsBack and AIFixer.GenerateFixFromReply |
| AIFixer.ParseLlmResponse | core/ai_fixer.py:171-210 | definition of `_parse_llm_response`; contract in AIFixer.GenerateFixFromReply and AIFixer.GenerateFixFallsBack |
| AIFixer.GenerateFixFallsBack | core/ai_fixer.py:90-132 | without the model, or when the call or decoding fails, the fix is the fallback |
| AIFixer.GenerateFixFromReply | core/ai_fixer.py:194-207 | a decoded reply gives the fix, with the missing fields defaulted (context, "No explanation provided", "", 0.5) |
| AIFixer.AverageConfidenceBounds | core/ai_fixer.py:280 | confidences in [0, 1] average in [0, 1] |
| AIFixer.AllFallbackAverage | core/ai_fixer.py:280 | all-fallback fixes average exactly 0.3 |
| AIFixer.AIFixer.constructor | core/ai_fixer.py:56-78 | the key is the given one, else the environment's; the model is usable iff the client is installed and the key is non-empty |
| AIFixer.AIFixer.GenerateFixesForImpact | core/ai_fixer.py:247-266 | one fix per impacted location, in order, each about its location; all fallbacks without the model |
| AIFixer.AIFixer.ExportFixReport | core/ai_fixer.py:268-295 | `total_fixes` is the number of fixes, with one record per fix carrying its file, line and confidence; the average is 0 for no fixes and lies in [0, 1] when every confidence does |
| DepParser.NormalizeIdempotent | core/dep_parser.py:174-185 | the normalised name has no `_`, `.`, doubled `-` or upper-case letter, and normalising is idempotent |
| DepParser.Normalize | core/dep_parser.py:174-185 | definition of `_normalize_package_name`; contract in DepParser.NormalizeIdempotent |
| DepParser.ParseLineNone | core/dep_parser.py:119-149 | no dependency iff the cleaned line is blank, an option or URL, or does not start alphanumeric |
| DepParser.ParseLine | core/dep_parser.py:119-172 | definition of `_parse_line`; contract in DepParser.ParseLineNone, DepParser.ParseLineFields and DepParser.ParseLineRoundTrip |
| DepParser.ParseLineFields | core/dep_parser.py:151-172 | name is the normalised raw name; raw name is the longest alphanumeric-bounded prefix; spec is operator+version iff both exist; file and line are passed through |
| DepParser.MatchName | core/dep_parser.py:56-57 | the matched name starts and ends alphanumeric and is the longest such prefix |
| DepParser.MatchRequirement | core/dep_parser.py:56-62 | definition of the requirement pattern match; contract in DepParser.MatchName and DepParser.MatchVersion |
| DepParser.MatchVersion | core/dep_parser.py:62 | the matched version holds only version characters |
| DepParser.ParseLineRoundTrip | core/dep_parser.py:119-172 | `name op version` parses back into its three parts |
| DepParser.ParseBareName | core/dep_parser.py:119-172 | a bare name parses with no operator, version or spec |
| DepParser.FileDepsMembers | core/dep_parser.py:96-117 | a file's dependencies are exactly its lines that parse |
| DepParser.FileDepsLines | core/dep_parser.py:96-117 | they carry the file and strictly increasing 1-based line numbers |
| DepParser.MergeKeyed | core/dep_parser.py:214-224 | each merged entry is keyed by its own normalised name and comes from the input |
| DepParser.MergeKeys | core/dep_parser.py:214-224 | a name is merged iff some dependency has it |
| DepParser.MergeLastWins | core/dep_parser.py:214-224 | the last dependency with a name wins |
| DepParser.DependencyParser.constructor | core/dep_parser.py:65-67 | there are no dependencies |
| DepParser.DependencyParser.ParseFile | core/dep_parser.py:96-117 | the line loop builds `FileDeps` |
| DepParser.DependencyParser.ParseRepository | core/dep_parser.py:187-227 | the dependencies are the merge of all files' dependencies, in file order |
| DepParser.DependencyParser.MergeInto | core/dep_parser.py:215-224 | merging a file extends the merge of what came before |
| DepParser.DependencyParser.GetAllDependencies | core/dep_parser.py:242-249 | one entry per dependency |
| DepParser.DependencyParser.ExportSummary | core/dep_parser.py:269-293 | total = pinned + unpinned = number of records, one record per dependency in order |
| DepParser.PinnedPartition | core/dep_parser.py:251-267 | pinned and unpinned partition all dependencies |
| DepParser.DependencyParser.GetPinnedDependencies | core/dep_parser.py:251-258 | definition of `get_pinned_dependencies`; contract in DepParser.PinnedPartition |
| DepParser.DependencyParser.GetUnpinnedDependencies | core/dep_parser.py:260-267 | definition of `get_unpinned_dependencies`; contract in DepParser.PinnedPartition |
| DepParser.GetDependencyNormalizes | core/dep_parser.py:229-240 | lookup by a name and by its normalised form agree |
| DepParser.DependencyParser.GetDependency | core/dep_parser.py:229-240 | definition of `get_dependency`; contract in DepParser.GetDependencyNormalizes and DepParser.FoundByRawName |
| DepParser.FoundByRawName | core/dep_parser.py:229-240 | after parsing, the last dependency with a name is found by its raw name |
| RepoFetcher.RepoNameFlat | core/repo_fetcher.py:154-167 | an extracted name never contains `/` |
| RepoFetcher.ExtractRepoName | core/repo_fetcher.py:138-169 | definition of `_extract_repo_name`; contract in RepoFetcher.RepoNameFlat, RepoFetcher.SshUrlName and RepoFetcher.HttpsUrlName |
| RepoFetcher.DotDotName | core/repo_fetcher.py:154-159 | the name can still be `..`: `git@github.com:..` is named `..` |
| RepoFetcher.SshUrlName | core/repo_fetcher.py:154-159 | `git@host:owner/repo.git` names `owner_repo` |
| RepoFetcher.HttpsUrlName | core/repo_fetcher.py:160-165 | `https://host/owner/repo.git` names `owner_repo` |
| RepoFetcher.ValidateLocalRepo | core/repo_fetcher.py:54-83 | success iff the resolved path exists, is a directory, and has `.git` or Python files; success returns the resolved path; a failure returns a message ending with it |
| RepoFetcher.CloneLocation | core/repo_fetcher.py:85-136 | success iff no error iff a path; no name fails; a cache entry that looks like a repository is reused as its resolved path; otherwise success iff the clone succeeds, giving `cacheDir/name` for a name without `/` |
| RepoFetcher.CloneGithubRepo | core/repo_fetcher.py:85-136 | definition of `_clone_github_repo`; contract in RepoFetcher.CloneLocation |
| RepoFetcher.FetchMeaning | core/repo_fetcher.py:37-52 | a path is returned iff the fetch succeeds iff there is no error; an existing local path is validated, and when valid its resolved form is returned |
| RepoFetcher.Fetch | core/repo_fetcher.py:37-52 | definition of `fetch`; contract in RepoFetcher.FetchMeaning |
| App.FirstFix | app.py:178 | the fix found is in the list and matches the file and line; None iff none matches |
| App.FirstFixAt | app.py:178 | the earliest matching fix is the one found |
| App.FirstFixAppend | app.py:124-178 | fixes kept from an earlier run are searched first |
| App.GroupNonEmpty | app.py:157-161 | every file in the grouping has at least one location, so `codes[0]` exists |
| App.FileImpactsMeaning | app.py:157-187 | each file entry lists that file's locations in order, with the earliest fix for its first location |
| App.FileImpactsFiles | app.py:157-187 | one entry per impacted file, each file once |
| App.ResultsMeaning | app.py:143-189 | one result per update, in order, with its fields; files only for a breaking package with a report, and then all its files |
| App.FixesForMeaning | app.py:122-124 | step 7 gives one fix per impacted location, each about one of them |
| App.PipelineFailures | app.py:74-90 | the run fails iff the fetch fails or no dependency is parsed; a failed fetch changes nothing |
| App.Pipeline | app.py:60-127 | definition of `run`; contract in App.PipelineFailures, App.PipelineNoBreaking, App.PipelineBreaking, App.PipelineCounts and App.PipelineFinal |
| App.PipelineNoBreaking | app.py:106-108 | without breaking updates nothing is scanned, mapped or fixed, and no result lists files |
| App.PipelineBreaking | app.py:110-127 | with breaking updates the run scans, maps and fixes them, and counts them |
| App.PipelineCounts | app.py:191-197 | one result per update; breaking + outdated <= updates <= dependencies |
| App.PipelineFinal | app.py:81-127 | a final report is the report of the state the run leaves |
| App.UpdatesCounts | app.py:94-102 | no more updates than dependencies, and no record both breaking and outdated |
| App.FinalReportCounts | app.py:191-197 | in the report of a state, one result per update, and breaking + outdated <= updates <= dependencies |
| App.FinalReportOf | app.py:129-198 | definition of `_generate_final_report`; contract in App.FinalReportCounts, App.ResultsMeaning and App.FileImpactsMeaning |
| App.BatchOfAtMost | app.py:95 | the fetch step never yields more updates than packages asked for |
| App.JoinAllConsistent | app.py:99-102 | every joined update has status `breaking` iff it is flagged breaking |
| App.FixesUpToIs | app.py:122-124 | the fixes of the first i impacts in key order are `FixesFor` of those impacts |
| App.ScannedMeaning | app.py:112-124 | impacts exist exactly for breaking packages found in use; new fixes, one per location, are appended after the kept ones |
| App.DeprecationIntelligenceSystem.constructor | app.py:39-58 | every attribute starts empty; no scanner yet |
| App.DeprecationIntelligenceSystem.Run | app.py:60-127 | the new state and the report are those of `Pipeline` |
| App.DeprecationIntelligenceSystem.Analyze | app.py:92-127 | steps 3 to 8 are those of `Analyzed` |
| App.DeprecationIntelligenceSystem.LoadAndJoin | app.py:94-101 | the joined records are `UpdatesOf` the dependencies; `breaking` is their breaking part |
| App.DeprecationIntelligenceSystem.ScanMapAndFix | app.py:110-124 | steps 5 to 7 are those of `Scanned` |
| App.DeprecationIntelligenceSystem.FixesForImpact | app.py:123 | the fixes for one impact are `FixesOfImpact` |
| App.DeprecationIntelligenceSystem.AppendFixes | app.py:122-124 | `ai_fixes` is extended by the fixes of every impact, in order |
| App.DeprecationIntelligenceSystem.NewFixes | app.py:122-124 | the loop collects `FixesFor` the impacts |
| App.DeprecationIntelligenceSystem.GenerateFinalReport | app.py:129-198 | the report is `FinalReportOf` the current state |
| App.DeprecationIntelligenceSystem.PackageResults | app.py:143-189 | the update loop builds `ResultsOf` |
| App.DeprecationIntelligenceSystem.PackageResultFor | app.py:144-187 | one update's entry is `PackageResultOf` |
| App.DeprecationIntelligenceSystem.FileImpactsOf | app.py:157-187 | the file loop builds `FileImpacts` |

## Left out

- The Pathway dataflow runtime (`start_streaming`, `on_change`, `pw.run`, the subscription) is a foreign engine. The batch path (`fetch_pypi_updates`, `perform_streaming_join`) models the same filter and join on package name.
- `register_breaking_change_callback` only stores a callback for the Pathway path, so it is not modelled.
- `fetch_latest_version` is a network request. The answer for each package is an input, either `fetched` or `Environment.latest`.
- The infinite `generate_events` loop, `time.sleep`, the `_running` flag and `stop` are not modelled. One cycle is modelled, with one clock reading for all its events.
- The broadcaster's `threading.Lock` is not modelled; the broadcaster runs sequentially. `put_nowait`'s `queue.Full` cannot happen, because `full()` is checked first.
- Versions.ParseVersion: only release segments (`N(.N)*`, with an optional leading `v`) are parsed. Epochs, pre-, post- and dev releases and local versions parse as None. A version `packaging` accepts with these segments is therefore `unknown` here.
- `Strs`: `lower`, `isspace` and the `\s` class are ASCII-only. Non-ASCII case folding and Unicode spaces are not modelled.
- RepoFetcher.UrlPath models the path part of `urlparse`: scheme, network location, query, fragment and `;params`. It does not model other `urlparse` details, such as its input sanitising and IPv6 checks.
- `_extract_repo_name`'s `except` branch is not modelled: the modelled string operations cannot raise.
- `_has_python_files` (an `os.walk`), the `Path.exists`/`is_dir` checks and `git clone` are not modelled; their results are the `DirFacts` and `CloneOutcome` inputs. `shutil.rmtree` of an invalid cache entry is not modelled; the clone outcome stands for what follows it.
- `cleanup_cache` only deletes files, so it is not modelled.
- `find_requirements_files` (a glob), `open` and reading files are not modelled. A requirements file is given as its path and its lines. Any file whose read raises is not modelled either.
- `ast.parse` is not modelled. A source file is given with its parsed tree, or None when parsing failed. The walk over `.py` files and the excluded directories are not modelled either. The files are the list given.
- `json.loads` and the OpenAI client are not modelled. The model's reply is an input, and `decode` is a parameter that returns None when the text is not a usable JSON object.
- `_build_prompt` only formats prompt text, so it is not modelled.
- Confidences are `real`, not floating point, and `float()` conversion errors count as decoding failures.
- AIFixer.AverageConfidenceBounds: the average is stated on exact reals, not on floating point.
- `generate_text_report` text formatting is not modelled. Only its grouping and sorting are (`TextSections`).
- `export_summary` timestamps and `datetime` are not modelled.
- `Path(file_path).relative_to(repo_path)` is the `relativeTo` parameter. `Path.resolve()` is not computed: the resolved form of a path is the `resolved` field of its `DirFacts`.
- RepoFetcher.CloneLocation: a name of `.` or `..` (see RepoFetcher.DotDotName) makes `cacheDir/name` the cache directory itself or its parent, which the source then validates and uses; the model treats the target as a string and does not capture which directory it denotes.
- App.FixesFor: the language model's reply is a function of the impacted location, so two identical locations get the same reply; a language model gives no such guarantee, and no proved property depends on it.
- `str(Path)` of a cloned repository is `cacheDir + "/" + name`; `pathlib` normalisation of that string is not modelled.
- `print` logging, `print_report`, `save_report`, every `__repr__`, every module's test `main()`, and the argparse `main` of app.py are not modelled.
- web_server.py is not part of this model.
- App.DeprecationIntelligenceSystem.AppendFixes: `ai_fixes` is extended once with the fixes of all impacts, not once per impact. The contents and order are the same.
- App.DeprecationIntelligenceSystem.Run: the repository fetcher, the scanner and the file walk are the `Environment`'s answers, not objects created by the constructor.
