/**
 * The impact mapper (core/impact_mapper.py): joins the breaking updates with
 * the scanner's usage reports into one impact per package, and the
 * aggregations over those impacts.
 */
module ImpactMapper {
  import opened Wrappers
  import opened Dicts
  import Sorting
  import Strs
  import CS = CodeScanner
  import SE = StreamEngine

  datatype ImpactedCode = ImpactedCode(
    filePath: string, lineNumber: int, apiElement: string, usageType: CS.UsageType,
    context: string, packageName: string, currentVersion: string, latestVersion: string)

  datatype BreakingChangeImpact = BreakingChangeImpact(
    packageName: string, currentVersion: string, latestVersion: string,
    totalImpacts: nat, filesAffected: nat, impactedCode: seq<ImpactedCode>)

  /** The impacted location for one usage: where and what from the usage,
      package and versions from the update. */
  function ImpactedFrom(update: SE.PackageUpdate, u: CS.CodeUsage): ImpactedCode {
    ImpactedCode(u.filePath, u.lineNumber, u.apiElement, u.usageType, u.context,
      update.packageName, update.currentVersion, update.latestVersion)
  }

  /** The impact `map_impacts` builds for an update with a usage report. */
  function ImpactOf(update: SE.PackageUpdate, report: CS.PackageUsageReport): BreakingChangeImpact {
    var codes := seq(|report.usages|, i requires 0 <= i < |report.usages| => ImpactedFrom(update, report.usages[i]));
    BreakingChangeImpact(update.packageName, update.currentVersion, update.latestVersion,
      |codes|, |report.filesAffected|, codes)
  }

  /** One impacted location per usage, in order, carrying the update's
      package and versions; the file count is the report's, not recounted. */
  lemma ImpactOfMeaning(update: SE.PackageUpdate, report: CS.PackageUsageReport)
    ensures var b := ImpactOf(update, report);
      && b.packageName == update.packageName
      && b.currentVersion == update.currentVersion && b.latestVersion == update.latestVersion
      && b.totalImpacts == |b.impactedCode| == |report.usages|
      && b.filesAffected == |report.filesAffected|
      && forall i :: 0 <= i < |report.usages| ==>
           var c := b.impactedCode[i]; var u := report.usages[i];
           && c.filePath == u.filePath && c.lineNumber == u.lineNumber
           && c.apiElement == u.apiElement && c.usageType == u.usageType && c.context == u.context
           && c.packageName == update.packageName
           && c.currentVersion == update.currentVersion && c.latestVersion == update.latestVersion
  {
  }

  /** `impact_reports` after `map_impacts(updates, reports)`. */
  function MapAll(updates: seq<SE.PackageUpdate>, reports: Dict<string, CS.PackageUsageReport>): Dict<string, BreakingChangeImpact>
    decreases |updates|
  {
    if updates == [] then Empty()
    else
      var n := |updates| - 1;
      var prev := MapAll(updates[..n], reports);
      var u := updates[n];
      match reports.Get(u.packageName)
      case Some(r) => prev.Put(u.packageName, ImpactOf(u, r))
      case None => prev
  }

  lemma {:induction false} MapAllValid(updates: seq<SE.PackageUpdate>, reports: Dict<string, CS.PackageUsageReport>)
    ensures MapAll(updates, reports).Valid()
    decreases |updates|
  {
    if updates != [] {
      MapAllValid(updates[..|updates| - 1], reports);
    }
  }

  /** There is an impact exactly for each updated package that has a usage
      report. */
  lemma {:induction false} MapAllKeys(updates: seq<SE.PackageUpdate>, reports: Dict<string, CS.PackageUsageReport>, p: string)
    ensures p in MapAll(updates, reports).vals <==>
      p in reports.vals && exists i :: 0 <= i < |updates| && updates[i].packageName == p
    decreases |updates|
  {
    if updates != [] {
      var n := |updates| - 1;
      MapAllKeys(updates[..n], reports, p);
      if p in reports.vals && p != updates[n].packageName {
        forall i | 0 <= i < n ensures updates[..n][i] == updates[i] {}
      }
    }
  }

  /** The impact for a package is built from the last update for it. */
  lemma {:induction false} MapAllLastWins(updates: seq<SE.PackageUpdate>, reports: Dict<string, CS.PackageUsageReport>, i: nat)
    requires i < |updates| && updates[i].packageName in reports.vals
    requires forall j :: i < j < |updates| ==> updates[j].packageName != updates[i].packageName
    ensures updates[i].packageName in MapAll(updates, reports).vals
    ensures MapAll(updates, reports).vals[updates[i].packageName] == ImpactOf(updates[i], reports.vals[updates[i].packageName])
    decreases |updates|
  {
    var n := |updates| - 1;
    if i < n {
      assert updates[..n][i] == updates[i];
      MapAllLastWins(updates[..n], reports, i);
      KeptByOtherUpdate(MapAll(updates[..n], reports), MapAll(updates, reports), updates[n], reports,
        updates[i].packageName, ImpactOf(updates[i], reports.vals[updates[i].packageName]));
    }
  }

  /** An update for another package leaves an entry as it was. */
  lemma KeptByOtherUpdate(prev: Dict<string, BreakingChangeImpact>, cur: Dict<string, BreakingChangeImpact>,
                          u: SE.PackageUpdate, reports: Dict<string, CS.PackageUsageReport>,
                          name: string, impact: BreakingChangeImpact)
    requires cur == match reports.Get(u.packageName)
      case Some(r) => prev.Put(u.packageName, ImpactOf(u, r))
      case None => prev
    requires u.packageName != name && name in prev.vals && prev.vals[name] == impact
    ensures name in cur.vals && cur.vals[name] == impact
  {
  }

  /** Every impact counts its own locations. */
  lemma MapAllCounts(updates: seq<SE.PackageUpdate>, reports: Dict<string, CS.PackageUsageReport>)
    ensures forall p :: p in MapAll(updates, reports).vals ==>
      MapAll(updates, reports).vals[p].totalImpacts == |MapAll(updates, reports).vals[p].impactedCode|
      && MapAll(updates, reports).vals[p].packageName == p
    decreases |updates|
  {
    if updates != [] {
      MapAllCounts(updates[..|updates| - 1], reports);
    }
  }

  // ---------------------------------------------------------------------
  // Aggregations

  function FilesOfCodes(codes: seq<ImpactedCode>): set<string> {
    set c | c in codes :: c.filePath
  }

  /** The files of the first `i` impacts, in key order. */
  function FilesUpTo(d: Dict<string, BreakingChangeImpact>, i: nat): set<string>
    requires d.Valid() && i <= |d.keys|
  {
    if i == 0 then {}
    else
      assert d.keys[i - 1] in d.keys;
      FilesUpTo(d, i - 1) + FilesOfCodes(d.vals[d.keys[i - 1]].impactedCode)
  }

  /** The files of all impacts. */
  function AllFiles(d: Dict<string, BreakingChangeImpact>): set<string>
    requires d.Valid()
  {
    FilesUpTo(d, |d.keys|)
  }

  /** A file is impacted exactly when some location of some impact is in it. */
  lemma {:induction false} FilesUpToMeaning(d: Dict<string, BreakingChangeImpact>, i: nat)
    requires d.Valid() && i <= |d.keys|
    ensures forall f :: f in FilesUpTo(d, i) <==>
      exists k, c :: 0 <= k < i && c in d.vals[d.keys[k]].impactedCode && c.filePath == f
  {
    if i > 0 {
      FilesUpToMeaning(d, i - 1);
      forall f | f in FilesUpTo(d, i)
        ensures exists k, c :: 0 <= k < i && c in d.vals[d.keys[k]].impactedCode && c.filePath == f
      {
        if f !in FilesUpTo(d, i - 1) {
          var c :| c in d.vals[d.keys[i - 1]].impactedCode && c.filePath == f;
        }
      }
    }
  }

  lemma {:induction false} NoDupCard(s: seq<string>)
    requires NoDup(s)
    ensures |set x | x in s| == |s|
    decreases |s|
  {
    if s != [] {
      var n := |s| - 1;
      NoDupCard(s[..n]);
      assert (set x | x in s) == (set x | x in s[..n]) + {s[n]};
      assert s[n] !in s[..n];
    }
  }

  /** `sum(impact.total_impacts for impact in values)`. */
  function SumImpacts(bs: seq<BreakingChangeImpact>): int
    decreases |bs|
  {
    if bs == [] then 0 else SumImpacts(bs[..|bs| - 1]) + bs[|bs| - 1].totalImpacts
  }

  /** The number of impacted locations over all impacts. */
  function CountCodes(bs: seq<BreakingChangeImpact>): nat
    decreases |bs|
  {
    if bs == [] then 0 else CountCodes(bs[..|bs| - 1]) + |bs[|bs| - 1].impactedCode|
  }

  /** When every impact counts its own locations, the summed counts are the
      number of locations. */
  lemma {:induction false} SumImpactsCountsCodes(bs: seq<BreakingChangeImpact>)
    requires forall k :: 0 <= k < |bs| ==> bs[k].totalImpacts == |bs[k].impactedCode|
    ensures SumImpacts(bs) == CountCodes(bs)
    decreases |bs|
  {
    if bs != [] {
      SumImpactsCountsCodes(bs[..|bs| - 1]);
    }
  }

  datatype CodeSummary = CodeSummary(file: string, line: int, api: string, usageType: CS.UsageType, context: string)
  datatype ChangeSummary = ChangeSummary(
    package: string, currentVersion: string, latestVersion: string,
    totalImpacts: nat, filesAffected: nat, impactedCode: seq<CodeSummary>)
  datatype ImpactSummary = ImpactSummary(
    totalBreakingPackages: nat, totalCodeImpacts: int, totalFilesAffected: nat, breakingChanges: seq<ChangeSummary>)

  function SummarizeImpact(b: BreakingChangeImpact): (s: ChangeSummary)
    ensures s.package == b.packageName && s.totalImpacts == b.totalImpacts && |s.impactedCode| == |b.impactedCode|
  {
    ChangeSummary(b.packageName, b.currentVersion, b.latestVersion, b.totalImpacts, b.filesAffected,
      seq(|b.impactedCode|, i requires 0 <= i < |b.impactedCode| =>
        var c := b.impactedCode[i]; CodeSummary(c.filePath, c.lineNumber, c.apiElement, c.usageType, c.context)))
  }

  // ---------------------------------------------------------------------
  // Grouping by file, shared with the final report

  /** The locations in file `f`, in order. */
  function CodesIn(codes: seq<ImpactedCode>, f: string): (r: seq<ImpactedCode>)
    ensures forall c :: c in r ==> c in codes && c.filePath == f
    ensures forall c :: c in codes && c.filePath == f ==> c in r
    ensures r == [] || f in FilesOfCodes(codes)
    decreases |codes|
  {
    if codes == [] then []
    else
      var n := |codes| - 1;
      var prev := CodesIn(codes[..n], f);
      assert codes == codes[..n] + [codes[n]];
      if codes[n].filePath == f then prev + [codes[n]] else prev
  }

  /** The `by_file` dict: locations grouped by file, files in order of first
      occurrence. */
  function GroupByFile(codes: seq<ImpactedCode>): Dict<string, seq<ImpactedCode>>
    decreases |codes|
  {
    if codes == [] then Empty()
    else
      var n := |codes| - 1;
      var prev := GroupByFile(codes[..n]);
      var c := codes[n];
      prev.Put(c.filePath, prev.Get(c.filePath).GetOr([]) + [c])
  }

  lemma {:induction false} GroupByFileValid(codes: seq<ImpactedCode>)
    ensures GroupByFile(codes).Valid()
    ensures forall f :: f in GroupByFile(codes).vals <==> f in FilesOfCodes(codes)
    decreases |codes|
  {
    if codes != [] {
      var n := |codes| - 1;
      GroupByFileValid(codes[..n]);
      assert codes == codes[..n] + [codes[n]];
      assert FilesOfCodes(codes) == FilesOfCodes(codes[..n]) + {codes[n].filePath};
    }
  }

  /** Each file's group is exactly its locations, in their original order. */
  lemma {:induction false} GroupByFileMeaning(codes: seq<ImpactedCode>, f: string)
    ensures f in GroupByFile(codes).vals ==> GroupByFile(codes).vals[f] == CodesIn(codes, f)
    decreases |codes|
  {
    if codes != [] {
      var n := |codes| - 1;
      var prev := GroupByFile(codes[..n]);
      GroupByFileValid(codes[..n]);
      GroupByFileMeaning(codes[..n], f);
      if f !in prev.vals {
        assert CodesIn(codes[..n], f) == [];
      }
    }
  }

  /** The sum of the group sizes. */
  function GroupedCount(d: Dict<string, seq<ImpactedCode>>, i: nat): nat
    requires d.Valid() && i <= |d.keys|
  {
    if i == 0 then 0
    else
      assert d.keys[i - 1] in d.keys;
      GroupedCount(d, i - 1) + |d.vals[d.keys[i - 1]]|
  }

  lemma {:induction false} GroupedCountPut(d: Dict<string, seq<ImpactedCode>>, k: string, v: seq<ImpactedCode>, i: nat)
    requires d.Valid() && k in d.vals && i <= |d.keys|
    ensures d.Put(k, v).Valid()
    ensures GroupedCount(d.Put(k, v), i) ==
      GroupedCount(d, i) + (if k in d.keys[..i] then |v| - |d.vals[k]| else 0)
  {
    if i > 0 {
      GroupedCountPut(d, k, v, i - 1);
      assert d.keys[..i] == d.keys[..i - 1] + [d.keys[i - 1]];
      if d.keys[i - 1] == k {
        assert k !in d.keys[..i - 1];
      }
    }
  }

  lemma {:induction false} GroupedCountAppend(d: Dict<string, seq<ImpactedCode>>, k: string, v: seq<ImpactedCode>, i: nat)
    requires d.Valid() && k !in d.vals && i <= |d.keys|
    ensures d.Put(k, v).Valid()
    ensures GroupedCount(d.Put(k, v), i) == GroupedCount(d, i)
  {
    if i > 0 {
      GroupedCountAppend(d, k, v, i - 1);
    }
  }

  /** Grouping loses and duplicates no location: the group sizes add up to
      the number of locations. */
  lemma {:induction false} GroupSizesSum(codes: seq<ImpactedCode>)
    ensures GroupByFile(codes).Valid()
    ensures GroupedCount(GroupByFile(codes), |GroupByFile(codes).keys|) == |codes|
    decreases |codes|
  {
    GroupByFileValid(codes);
    if codes != [] {
      var n := |codes| - 1;
      GroupSizesSum(codes[..n]);
      GroupByFileValid(codes[..n]);
      var d := GroupByFile(codes[..n]);
      var c := codes[n];
      assert GroupByFile(codes) == d.Put(c.filePath, d.Get(c.filePath).GetOr([]) + [c]);
      if c.filePath in d.vals {
        assert d.Get(c.filePath).GetOr([]) == d.vals[c.filePath];
        GroupedCountExtend(d, c);
      } else {
        assert d.Get(c.filePath).GetOr([]) + [c] == [c];
        GroupedCountNew(d, c);
      }
    }
  }

  /** Adding a location to an existing group adds one to the sum. */
  lemma GroupedCountExtend(d: Dict<string, seq<ImpactedCode>>, c: ImpactedCode)
    requires d.Valid() && c.filePath in d.vals
    ensures var d' := d.Put(c.filePath, d.vals[c.filePath] + [c]);
      d'.Valid() && GroupedCount(d', |d'.keys|) == GroupedCount(d, |d.keys|) + 1
  {
    GroupedCountPut(d, c.filePath, d.vals[c.filePath] + [c], |d.keys|);
    assert d.keys[..|d.keys|] == d.keys;
  }

  /** Opening a new group of one location adds one to the sum. */
  lemma GroupedCountNew(d: Dict<string, seq<ImpactedCode>>, c: ImpactedCode)
    requires d.Valid() && c.filePath !in d.vals
    ensures var d' := d.Put(c.filePath, [c]);
      d'.Valid() && GroupedCount(d', |d'.keys|) == GroupedCount(d, |d.keys|) + 1
  {
    var d' := d.Put(c.filePath, [c]);
    GroupedCountAppend(d, c.filePath, [c], |d.keys|);
    assert d'.keys[|d.keys|] == c.filePath;
  }

  /** One iteration of the `by_file` loop: open the file's group when it is
      missing, then append the location to it. */
  method AddToGroup(byFile: Dict<string, seq<ImpactedCode>>, code: ImpactedCode) returns (r: Dict<string, seq<ImpactedCode>>)
    ensures r == byFile.Put(code.filePath, byFile.Get(code.filePath).GetOr([]) + [code])
  {
    r := byFile;
    if code.filePath !in r.vals {
      r.PutTwice(code.filePath, [], [code]);
      r := r.Put(code.filePath, []);
    }
    r := r.Put(code.filePath, r.vals[code.filePath] + [code]);
  }

  /** The `by_file` loop: group the locations by file. */
  method GroupCodesByFile(codes: seq<ImpactedCode>) returns (byFile: Dict<string, seq<ImpactedCode>>)
    ensures byFile == GroupByFile(codes)
  {
    byFile := Empty();
    var i := 0;
    while i < |codes|
      invariant 0 <= i <= |codes|
      invariant byFile == GroupByFile(codes[..i])
    {
      assert codes[..i + 1][..i] == codes[..i];
      byFile := AddToGroup(byFile, codes[i]);
      i := i + 1;
    }
    assert codes[..i] == codes;
  }

  /** One file's block of the text report. */
  datatype FileSection = FileSection(filePath: string, codes: seq<ImpactedCode>)

  function LineOf(c: ImpactedCode): int { c.lineNumber }

  /** The impacted files of one impact, sorted by path. */
  function SectionPaths(b: BreakingChangeImpact): (paths: seq<string>)
    ensures Sorting.StrictlySorted(paths)
    ensures forall f :: f in paths <==> f in FilesOfCodes(b.impactedCode)
  {
    GroupByFileValid(b.impactedCode);
    Sorting.SortStrings(GroupByFile(b.impactedCode).keys)
  }

  /** The grouping and ordering of `generate_text_report` for one impact:
      files sorted by path, each file's locations sorted by line. */
  function TextSections(b: BreakingChangeImpact): (ss: seq<FileSection>)
    ensures |ss| == |SectionPaths(b)|
    ensures forall i :: 0 <= i < |ss| ==> ss[i].filePath == SectionPaths(b)[i]
  {
    var byFile := GroupByFile(b.impactedCode);
    var paths := SectionPaths(b);
    seq(|paths|, i requires 0 <= i < |paths| =>
      var g := if paths[i] in byFile.vals then byFile.vals[paths[i]] else [];
      FileSection(paths[i], Sorting.SortBy(g, LineOf)))
  }

  /** The report lists each impacted file once, in path order. */
  lemma TextSectionsFiles(b: BreakingChangeImpact)
    ensures var ss := TextSections(b);
      && (forall i, j :: 0 <= i < j < |ss| ==> Strs.Less(ss[i].filePath, ss[j].filePath))
      && (forall f :: f in FilesOfCodes(b.impactedCode) <==> exists i :: 0 <= i < |ss| && ss[i].filePath == f)
  {
    var paths := SectionPaths(b);
    var ss := TextSections(b);
    forall f | f in FilesOfCodes(b.impactedCode)
      ensures exists i :: 0 <= i < |ss| && ss[i].filePath == f
    {
      var i :| 0 <= i < |paths| && paths[i] == f;
      assert ss[i].filePath == f;
    }
    forall i | 0 <= i < |ss|
      ensures ss[i].filePath in FilesOfCodes(b.impactedCode)
    {
      assert paths[i] in paths;
    }
  }

  /** Under each file the report lists exactly that file's locations,
      ordered by line. */
  lemma TextSectionsCodes(b: BreakingChangeImpact, i: nat)
    requires i < |TextSections(b)|
    ensures var sec := TextSections(b)[i];
      && Sorting.SortedBy(sec.codes, LineOf)
      && multiset(sec.codes) == multiset(CodesIn(b.impactedCode, sec.filePath))
  {
    var byFile := GroupByFile(b.impactedCode);
    GroupByFileValid(b.impactedCode);
    var paths := SectionPaths(b);
    assert paths[i] in paths;
    GroupByFileMeaning(b.impactedCode, paths[i]);
  }

  class ImpactMapper {
    var impactReports: Dict<string, BreakingChangeImpact>

    constructor ()
      ensures impactReports == Empty()
    {
      impactReports := Empty();
    }

    /** `map_impacts`: reset, then one impact per breaking update whose
        package has a usage report. */
    method MapImpacts(breakingUpdates: seq<SE.PackageUpdate>, usageReports: Dict<string, CS.PackageUsageReport>)
      returns (r: Dict<string, BreakingChangeImpact>)
      modifies this
      ensures impactReports == MapAll(breakingUpdates, usageReports)
      ensures r == impactReports
    {
      impactReports := Empty();
      var i := 0;
      while i < |breakingUpdates|
        invariant 0 <= i <= |breakingUpdates|
        invariant impactReports == MapAll(breakingUpdates[..i], usageReports)
      {
        var update := breakingUpdates[i];
        assert breakingUpdates[..i + 1][..i] == breakingUpdates[..i];
        var usageReport := usageReports.Get(update.packageName);
        if usageReport.Some? {
          var impact := BuildImpact(update, usageReport.value);
          impactReports := impactReports.Put(update.packageName, impact);
        }
        i := i + 1;
      }
      assert breakingUpdates[..i] == breakingUpdates;
      r := impactReports;
    }

    /** The body of the `if usage_report:` branch: one impacted-code record
        per usage, in order, and the counts. */
    method BuildImpact(update: SE.PackageUpdate, report: CS.PackageUsageReport) returns (impact: BreakingChangeImpact)
      ensures impact == ImpactOf(update, report)
    {
      var codes: seq<ImpactedCode> := [];
      var j := 0;
      while j < |report.usages|
        invariant 0 <= j <= |report.usages|
        invariant |codes| == j
        invariant forall k :: 0 <= k < j ==> codes[k] == ImpactedFrom(update, report.usages[k])
      {
        var usage := report.usages[j];
        codes := codes + [ImpactedCode(usage.filePath, usage.lineNumber, usage.apiElement, usage.usageType,
          usage.context, update.packageName, update.currentVersion, update.latestVersion)];
        j := j + 1;
      }
      impact := BreakingChangeImpact(update.packageName, update.currentVersion, update.latestVersion,
        |codes|, |report.filesAffected|, codes);
    }

    /** `get_impact_report`. */
    function GetImpactReport(name: string): Option<BreakingChangeImpact>
      reads this
    {
      impactReports.Get(name)
    }

    /** `get_all_impacted_files`: every impacted file once, sorted. */
    method GetAllImpactedFiles() returns (files: seq<string>)
      requires impactReports.Valid()
      ensures Sorting.StrictlySorted(files)
      ensures forall f :: f in files <==> f in AllFiles(impactReports)
    {
      var d := impactReports;
      var found: seq<string> := [];
      var i := 0;
      while i < |d.keys|
        invariant 0 <= i <= |d.keys|
        invariant NoDup(found)
        invariant forall f :: f in found <==> f in FilesUpTo(d, i)
      {
        assert d.keys[i] in d.keys;
        var codes := d.vals[d.keys[i]].impactedCode;
        var j := 0;
        while j < |codes|
          invariant 0 <= j <= |codes|
          invariant NoDup(found)
          invariant forall f :: f in found <==> f in FilesUpTo(d, i) + FilesOfCodes(codes[..j])
        {
          assert codes[..j + 1] == codes[..j] + [codes[j]];
          if codes[j].filePath !in found {
            found := found + [codes[j].filePath];
          }
          j := j + 1;
        }
        assert codes[..j] == codes;
        i := i + 1;
      }
      files := Sorting.SortStrings(found);
    }

    /** `export_summary`. */
    method ExportSummary() returns (s: ImpactSummary)
      requires impactReports.Valid()
      ensures s.totalBreakingPackages == impactReports.Size() == |s.breakingChanges|
      ensures s.totalCodeImpacts == SumImpacts(impactReports.Values())
      ensures s.totalFilesAffected == |AllFiles(impactReports)|
      ensures forall i :: 0 <= i < |s.breakingChanges| ==>
        s.breakingChanges[i] == SummarizeImpact(impactReports.vals[impactReports.keys[i]])
    {
      var vs := impactReports.Values();
      var allFiles := GetAllImpactedFiles();
      Sorting.StrictlySortedDistinct(allFiles);
      NoDupCard(allFiles);
      assert (set x | x in allFiles) == AllFiles(impactReports);
      s := ImpactSummary(|impactReports.keys|, SumImpacts(vs), |allFiles|,
        seq(|vs|, i requires 0 <= i < |vs| => SummarizeImpact(vs[i])));
    }
  }

  /** After `map_impacts`, the summary's code-impact total is the number of
      impacted locations. */
  lemma SummaryTotalsAfterMapping(updates: seq<SE.PackageUpdate>, reports: Dict<string, CS.PackageUsageReport>)
    ensures MapAll(updates, reports).Valid()
    ensures SumImpacts(MapAll(updates, reports).Values()) == CountCodes(MapAll(updates, reports).Values())
  {
    var d := MapAll(updates, reports);
    MapAllValid(updates, reports);
    MapAllCounts(updates, reports);
    var vs := d.Values();
    forall k | 0 <= k < |vs| ensures vs[k].totalImpacts == |vs[k].impactedCode| {
      assert d.keys[k] in d.keys;
    }
    SumImpactsCountsCodes(vs);
  }

  /** After `map_impacts`, `get_impact_report` finds a report exactly for a
      mapped package that the scan found in use, and the report is that
      package's, counting its own locations. */
  lemma GetImpactReportAfterMapping(m: ImpactMapper, updates: seq<SE.PackageUpdate>,
                                    reports: Dict<string, CS.PackageUsageReport>, p: string)
    requires m.impactReports == MapAll(updates, reports)
    ensures m.GetImpactReport(p).Some? <==>
      p in reports.vals && exists i :: 0 <= i < |updates| && updates[i].packageName == p
    ensures m.GetImpactReport(p).Some? ==>
      m.GetImpactReport(p).value.packageName == p &&
      m.GetImpactReport(p).value.totalImpacts == |m.GetImpactReport(p).value.impactedCode|
  {
    MapAllKeys(updates, reports, p);
    MapAllCounts(updates, reports);
  }
}
