/**
 * The requirements parser (core/dep_parser.py): one line of a requirements
 * file, PEP 503 name normalisation, the merge of several files, and the
 * queries over the merged dependencies. Finding and reading the files is
 * I/O: a file is given as its path and the lines read from it.
 */
module DepParser {
  import opened Wrappers
  import opened Dicts
  import Strs
  import Seqs

  datatype Dependency = Dependency(
    name: string, rawName: string, versionSpec: Option<string>, version: Option<string>,
    operator: Option<string>, sourceFile: string, lineNumber: int)

  // ---------------------------------------------------------------------
  // PEP 503 normalisation: `re.sub(r'[-_.]+', '-', name).lower()`

  predicate IsSep(c: char) { c == '-' || c == '_' || c == '.' }

  /** `s` without its leading separators. */
  function DropSeps(s: string): (r: string)
    ensures |r| <= |s| && r == s[|s| - |r|..]
    ensures r == [] || !IsSep(r[0])
    ensures forall j :: 0 <= j < |s| - |r| ==> IsSep(s[j])
    decreases |s|
  {
    if s != [] && IsSep(s[0]) then DropSeps(s[1..]) else s
  }

  /** Each maximal run of `-`, `_` and `.` replaced by one `-`. */
  function Collapse(s: string): (r: string)
    ensures r == [] <==> s == []
    ensures r != [] ==> (r[0] == '-' <==> IsSep(s[0]))
    decreases |s|
  {
    if s == [] then []
    else if IsSep(s[0]) then "-" + Collapse(DropSeps(s[1..]))
    else [s[0]] + Collapse(s[1..])
  }

  /** `_normalize_package_name`. */
  function Normalize(name: string): string {
    Strs.Lower(Collapse(name))
  }

  /** No `_` or `.`, and no two `-` in a row. */
  predicate Collapsed(s: string) {
    forall i :: 0 <= i < |s| ==> s[i] != '_' && s[i] != '.' && (s[i] == '-' && i + 1 < |s| ==> s[i + 1] != '-')
  }

  lemma {:induction false} CollapseIsCollapsed(s: string)
    ensures Collapsed(Collapse(s))
    decreases |s|
  {
    if s != [] {
      if IsSep(s[0]) {
        CollapseIsCollapsed(DropSeps(s[1..]));
      } else {
        CollapseIsCollapsed(s[1..]);
      }
    }
  }

  lemma {:induction false} CollapseOfCollapsed(s: string)
    requires Collapsed(s)
    ensures Collapse(s) == s
    decreases |s|
  {
    if s != [] {
      assert Collapsed(s[1..]) by {
        forall i | 0 <= i < |s[1..]| ensures s[1..][i] == s[i + 1] {}
      }
      if IsSep(s[0]) {
        assert s[0] == '-';
        assert s[1..] == [] || !IsSep(s[1]);
        assert DropSeps(s[1..]) == s[1..];
      }
      CollapseOfCollapsed(s[1..]);
    }
  }

  lemma LowerKeepsCollapsed(s: string)
    requires Collapsed(s)
    ensures Collapsed(Strs.Lower(s))
  {
  }

  lemma LowerIdempotent(s: string)
    ensures Strs.Lower(Strs.Lower(s)) == Strs.Lower(s)
  {
  }

  /** A normalised name has no `_`, `.` or upper-case letter, never two `-`
      in a row, and normalising it again changes nothing. */
  lemma NormalizeIdempotent(name: string)
    ensures Collapsed(Normalize(name))
    ensures forall i :: 0 <= i < |Normalize(name)| ==> !Strs.IsUpper(Normalize(name)[i])
    ensures Normalize(Normalize(name)) == Normalize(name)
  {
    var c := Collapse(name);
    CollapseIsCollapsed(name);
    LowerKeepsCollapsed(c);
    CollapseOfCollapsed(Strs.Lower(c));
    LowerIdempotent(c);
  }

  // ---------------------------------------------------------------------
  // `REQUIREMENT_PATTERN.match`, written out. Every group after the name is
  // optional, so the first match the regex engine finds is the greedy one.

  predicate IsNameChar(c: char) { Strs.IsAlnum(c) || IsSep(c) }
  predicate IsExtrasChar(c: char) { Strs.IsAlnum(c) || c == ',' || c == '_' || c == '-' }
  predicate IsOperatorChar(c: char) { c == '=' || c == '<' || c == '>' || c == '!' || c == '~' }
  predicate IsVersionChar(c: char) { Strs.IsAlnum(c) || c == '.' || c == '*' || c == '+' || c == '-' }

  /** The character classes the pattern repeats. */
  datatype CharClass = NameChars | ExtrasChars | SpaceChars | VersionChars

  predicate InClass(c: char, cls: CharClass) {
    match cls
    case NameChars => IsNameChar(c)
    case ExtrasChars => IsExtrasChar(c)
    case SpaceChars => Strs.IsSpace(c)
    case VersionChars => IsVersionChar(c)
  }

  /** The length of the longest run of `cls`-characters starting at `i`. */
  function RunLen(s: string, i: nat, cls: CharClass): (n: nat)
    requires i <= |s|
    ensures i + n <= |s|
    decreases |s| - i
  {
    if i < |s| && InClass(s[i], cls) then 1 + RunLen(s, i + 1, cls) else 0
  }

  /** The run is made of `cls`-characters and is as long as it can be. */
  lemma {:induction false} RunLenMeaning(s: string, i: nat, cls: CharClass)
    requires i <= |s|
    ensures forall j :: i <= j < i + RunLen(s, i, cls) ==> InClass(s[j], cls)
    ensures i + RunLen(s, i, cls) == |s| || !InClass(s[i + RunLen(s, i, cls)], cls)
    decreases |s| - i
  {
    if i < |s| && InClass(s[i], cls) {
      RunLenMeaning(s, i + 1, cls);
    }
  }

  lemma {:induction false} RunLenIs(s: string, i: nat, j: nat, cls: CharClass)
    requires i <= j <= |s|
    requires forall k :: i <= k < j ==> InClass(s[k], cls)
    requires j == |s| || !InClass(s[j], cls)
    ensures RunLen(s, i, cls) == j - i
    decreases j - i
  {
    if i < j {
      RunLenIs(s, i + 1, j, cls);
    }
  }

  /** The end of the longest prefix of `s[..k]` that ends with an alphanumeric. */
  function AlnumEnd(s: string, k: nat): (r: nat)
    requires 1 <= k <= |s| && Strs.IsAlnum(s[0])
    ensures 1 <= r <= k && Strs.IsAlnum(s[r - 1])
    ensures forall j :: r <= j < k ==> !Strs.IsAlnum(s[j])
    decreases k
  {
    if Strs.IsAlnum(s[k - 1]) then k else AlnumEnd(s, k - 1)
  }

  /** The end of group 1, `[a-zA-Z0-9]([a-zA-Z0-9._-]*[a-zA-Z0-9])?`. */
  function NameEnd(s: string): (r: nat)
    requires |s| > 0 && Strs.IsAlnum(s[0])
    ensures 1 <= r <= |s|
  {
    AlnumEnd(s, RunLen(s, 0, NameChars))
  }

  /** The end of the optional extras group `(\[[a-zA-Z0-9,_-]+\])?`. */
  function ExtrasEnd(s: string, i: nat): (r: nat)
    requires i <= |s|
    ensures i <= r <= |s|
  {
    if i < |s| && s[i] == '[' then
      var n := RunLen(s, i + 1, ExtrasChars);
      if n >= 1 && i + 1 + n < |s| && s[i + 1 + n] == ']' then i + n + 2 else i
    else i
  }

  /** `\s*`. */
  function SkipSpace(s: string, i: nat): (r: nat)
    requires i <= |s|
    ensures i <= r <= |s|
  {
    i + RunLen(s, i, SpaceChars)
  }

  /** The length of the optional operator group `([=<>!~]=?)?`. */
  function OperatorLen(s: string, i: nat): (n: nat)
    requires i <= |s|
    ensures i + n <= |s| && n <= 2
  {
    if i < |s| && IsOperatorChar(s[i]) then (if i + 1 < |s| && s[i + 1] == '=' then 2 else 1) else 0
  }

  /** Groups 1, 4 and 5 of a match. */
  datatype Match = Match(rawName: string, operator: Option<string>, version: Option<string>)

  function MatchRequirement(s: string): Option<Match> {
    if |s| == 0 || !Strs.IsAlnum(s[0]) then None
    else
      var k := NameEnd(s);
      var a := SkipSpace(s, ExtrasEnd(s, k));
      var m := OperatorLen(s, a);
      var b := SkipSpace(s, a + m);
      Some(Match(s[..k], OperatorGroup(s, a), VersionGroup(s, b)))
  }

  /** Group 4: an operator character, possibly followed by `=`. */
  function OperatorGroup(s: string, a: nat): (r: Option<string>)
    requires a <= |s|
    ensures r.Some? ==> 1 <= |r.value| <= 2 && IsOperatorChar(r.value[0]) && (|r.value| == 2 ==> r.value[1] == '=')
  {
    var m := OperatorLen(s, a);
    if m == 0 then None else Some(s[a..a + m])
  }

  /** Group 5: a non-empty run of version characters. */
  function VersionGroup(s: string, b: nat): (r: Option<string>)
    requires b <= |s|
    ensures r.Some? ==> |r.value| >= 1
  {
    var n := RunLen(s, b, VersionChars);
    if n == 0 then None else Some(s[b..b + n])
  }

  /** Every character of group 5 is a version character. */
  lemma VersionGroupChars(s: string, b: nat)
    requires b <= |s| && VersionGroup(s, b).Some?
    ensures forall i :: 0 <= i < |VersionGroup(s, b).value| ==> IsVersionChar(VersionGroup(s, b).value[i])
  {
    RunLenMeaning(s, b, VersionChars);
    var v := VersionGroup(s, b).value;
    assert forall i :: 0 <= i < |v| ==> v[i] == s[b + i];
  }

  // ---------------------------------------------------------------------
  // `_parse_line`

  /** The line with everything from the first `#` removed, stripped. */
  function Cleaned(line: string): string {
    Strs.Strip(Strs.Split(line, '#')[0])
  }

  /** Lines `_parse_line` skips before matching: blank, options such as `-r`
      and `--index-url`, and URL requirements. */
  predicate Skipped(s: string) {
    s == [] || "-" <= s || "--" <= s ||
    "git+" <= s || "http://" <= s || "https://" <= s || "svn+" <= s || "hg+" <= s
  }

  function ParseLine(line: string, sourceFile: string, lineNumber: int): Option<Dependency> {
    var s := Cleaned(line);
    if Skipped(s) then None
    else match MatchRequirement(s)
      case None => None
      case Some(m) =>
        var spec := if m.operator.Some? && m.version.Some? then Some(m.operator.value + m.version.value) else None;
        Some(Dependency(Normalize(m.rawName), m.rawName, spec, m.version, m.operator, sourceFile, lineNumber))
  }

  /** A line gives no dependency exactly when it is blank after removing the
      comment, is an option or a URL, or does not start with a letter or digit. */
  lemma ParseLineNone(line: string, sourceFile: string, lineNumber: int)
    ensures ParseLine(line, sourceFile, lineNumber).None? <==>
      Skipped(Cleaned(line)) || !Strs.IsAlnum(Cleaned(line)[0])
  {
  }

  /** What a parsed dependency holds: the normalised raw name; the raw name
      is the longest name-character prefix of the cleaned line that ends
      with a letter or digit; `version_spec` is operator plus version exactly
      when both are present; file and line are passed through. */
  lemma ParseLineFields(line: string, sourceFile: string, lineNumber: int)
    requires ParseLine(line, sourceFile, lineNumber).Some?
    ensures var d := ParseLine(line, sourceFile, lineNumber).value; var s := Cleaned(line);
      && d.name == Normalize(d.rawName)
      && d.sourceFile == sourceFile && d.lineNumber == lineNumber
      && d.rawName <= s && |d.rawName| >= 1
      && Strs.IsAlnum(d.rawName[0]) && Strs.IsAlnum(d.rawName[|d.rawName| - 1])
      && (forall i :: 0 <= i < |d.rawName| ==> IsNameChar(d.rawName[i]))
      && |d.rawName| <= RunLen(s, 0, NameChars)
      && (forall j :: |d.rawName| <= j < RunLen(s, 0, NameChars) ==> !Strs.IsAlnum(s[j]))
      && (d.versionSpec.Some? <==> d.operator.Some? && d.version.Some?)
      && (d.versionSpec.Some? ==> d.versionSpec.value == d.operator.value + d.version.value)
      && (d.operator.Some? ==>
            (1 <= |d.operator.value| <= 2 && IsOperatorChar(d.operator.value[0])
             && (|d.operator.value| == 2 ==> d.operator.value[1] == '=')))
      && (d.version.Some? ==>
            (|d.version.value| >= 1 && forall i :: 0 <= i < |d.version.value| ==> IsVersionChar(d.version.value[i])))
  {
    var s := Cleaned(line);
    var m := MatchRequirement(s).value;
    var d := ParseLine(line, sourceFile, lineNumber).value;
    assert d.rawName == m.rawName && d.operator == m.operator && d.version == m.version;
    MatchName(s);
    MatchVersion(s);
  }

  /** Group 5 of a match, when present, is made of version characters. */
  lemma MatchVersion(s: string)
    requires MatchRequirement(s).Some?
    ensures var v := MatchRequirement(s).value.version;
      v.Some? ==> forall i :: 0 <= i < |v.value| ==> IsVersionChar(v.value[i])
  {
    var a := SkipSpace(s, ExtrasEnd(s, NameEnd(s)));
    var b := SkipSpace(s, a + OperatorLen(s, a));
    if VersionGroup(s, b).Some? {
      VersionGroupChars(s, b);
    }
  }

  /** Group 1 of a match: the longest name-character prefix ending with a
      letter or digit. */
  lemma MatchName(s: string)
    requires MatchRequirement(s).Some?
    ensures var r := MatchRequirement(s).value.rawName;
      && r <= s && |r| >= 1
      && Strs.IsAlnum(r[0]) && Strs.IsAlnum(r[|r| - 1])
      && (forall i :: 0 <= i < |r| ==> IsNameChar(r[i]))
      && |r| <= RunLen(s, 0, NameChars)
      && (forall j :: |r| <= j < RunLen(s, 0, NameChars) ==> !Strs.IsAlnum(s[j]))
  {
    MatchRawName(s);
    NamePrefix(s);
  }

  lemma MatchRawName(s: string)
    requires MatchRequirement(s).Some?
    ensures |s| > 0 && Strs.IsAlnum(s[0]) && MatchRequirement(s).value.rawName == s[..NameEnd(s)]
  {
  }

  lemma NamePrefix(s: string)
    requires |s| > 0 && Strs.IsAlnum(s[0])
    ensures var r := s[..NameEnd(s)];
      && Strs.IsAlnum(r[0]) && Strs.IsAlnum(r[|r| - 1])
      && (forall i :: 0 <= i < |r| ==> IsNameChar(r[i]))
      && |r| <= RunLen(s, 0, NameChars)
      && (forall j :: |r| <= j < RunLen(s, 0, NameChars) ==> !Strs.IsAlnum(s[j]))
  {
    var run := RunLen(s, 0, NameChars);
    RunLenMeaning(s, 0, NameChars);
    var k := AlnumEnd(s, run);
    var r := s[..k];
    assert r[0] == s[0] && r[k - 1] == s[k - 1];
    assert forall i :: 0 <= i < k ==> r[i] == s[i];
  }

  /** A well-formed requirement `name op version`. */
  predicate WellFormed(name: string, op: string, version: string) {
    && |name| >= 1 && Strs.IsAlnum(name[0]) && Strs.IsAlnum(name[|name| - 1])
    && (forall i :: 0 <= i < |name| ==> IsNameChar(name[i]))
    && 1 <= |op| <= 2 && IsOperatorChar(op[0]) && (|op| == 2 ==> op[1] == '=')
    && |version| >= 1 && (forall i :: 0 <= i < |version| ==> IsVersionChar(version[i]))
  }

  /** A line made of name characters and then, if anything, an operator
      character cannot start with a URL prefix. */
  lemma NotUrlPrefix(s: string, k: nat, pre: string)
    requires 1 <= |pre| && !IsNameChar(pre[|pre| - 1])
    requires forall i :: 0 <= i < |pre| ==> !IsOperatorChar(pre[i])
    requires k <= |s| && (k < |s| ==> IsOperatorChar(s[k]))
    requires forall i :: 0 <= i < k ==> IsNameChar(s[i])
    ensures !(pre <= s)
  {
    if |pre| <= |s| {
      var j := if |pre| - 1 < k then |pre| - 1 else k;
      assert s[j] != pre[j];
    }
  }

  /** Such a line is not skipped when it starts with a letter or digit. */
  lemma NotSkipped(s: string, k: nat)
    requires 1 <= k <= |s| && Strs.IsAlnum(s[0])
    requires k < |s| ==> IsOperatorChar(s[k])
    requires forall i :: 0 <= i < k ==> IsNameChar(s[i])
    ensures !Skipped(s)
  {
    NotUrlPrefix(s, k, "git+");
    NotUrlPrefix(s, k, "http://");
    NotUrlPrefix(s, k, "https://");
    NotUrlPrefix(s, k, "svn+");
    NotUrlPrefix(s, k, "hg+");
  }

  lemma NoHashNoSplit(s: string)
    requires '#' !in s
    ensures Strs.Split(s, '#')[0] == s
  {
  }

  /** A well-formed requirement line is its own cleaned form and is not skipped. */
  lemma {:induction false} CleanedWellFormed(name: string, op: string, version: string)
    requires WellFormed(name, op, version)
    ensures Cleaned(name + op + version) == name + op + version
    ensures !Skipped(name + op + version)
  {
    var s := name + op + version;
    assert forall i :: 0 <= i < |s| ==> s[i] != '#' by {
      forall i | 0 <= i < |s| ensures s[i] != '#' {
        if i < |name| { assert s[i] == name[i]; }
        else if i < |name| + |op| { assert s[i] == op[i - |name|]; }
        else { assert s[i] == version[i - |name| - |op|]; }
      }
    }
    NoHashNoSplit(s);
    assert s[|s| - 1] == version[|version| - 1];
    Strs.StripNoSpace(s);
    var k := |name|;
    assert s[k] == op[0];
    assert s[0] == name[0];
    forall i | 0 <= i < k ensures IsNameChar(s[i]) { assert s[i] == name[i]; }
    NotSkipped(s, k);
  }

  /** The pattern on a line made of a name ending at `k`, an operator
      ending at `e` and a version running to the end. */
  lemma {:induction false} MatchParts(s: string, k: nat, e: nat)
    requires 1 <= k < e < |s| && e <= k + 2 && Strs.IsAlnum(s[0]) && Strs.IsAlnum(s[k - 1])
    requires forall i :: 0 <= i < k ==> IsNameChar(s[i])
    requires IsOperatorChar(s[k]) && (e == k + 2 ==> s[k + 1] == '=')
    requires forall i :: e <= i < |s| ==> IsVersionChar(s[i])
    ensures MatchRequirement(s) == Some(Match(s[..k], Some(s[k..e]), Some(s[e..])))
  {
    NameAndOperator(s, k, e);
    VersionToEnd(s, e);
    assert s[e..e + (|s| - e)] == s[e..];
  }

  lemma {:induction false} NameAndOperator(s: string, k: nat, e: nat)
    requires 1 <= k < e < |s| && e <= k + 2 && Strs.IsAlnum(s[0]) && Strs.IsAlnum(s[k - 1])
    requires forall i :: 0 <= i < k ==> IsNameChar(s[i])
    requires IsOperatorChar(s[k]) && (e == k + 2 ==> s[k + 1] == '=')
    requires !IsOperatorChar(s[e]) && s[e] != '='
    ensures NameEnd(s) == k && SkipSpace(s, ExtrasEnd(s, k)) == k && OperatorLen(s, k) == e - k
  {
    NameEndIs(s, k);
    RunLenIs(s, k, k, SpaceChars);
  }

  lemma {:induction false} VersionToEnd(s: string, e: nat)
    requires e < |s|
    requires forall i :: e <= i < |s| ==> IsVersionChar(s[i])
    ensures SkipSpace(s, e) == e && RunLen(s, e, VersionChars) == |s| - e
  {
    RunLenIs(s, e, e, SpaceChars);
    RunLenIs(s, e, |s|, VersionChars);
  }

  lemma {:induction false} NameEndIs(s: string, k: nat)
    requires 1 <= k <= |s| && Strs.IsAlnum(s[0]) && Strs.IsAlnum(s[k - 1])
    requires forall i :: 0 <= i < k ==> IsNameChar(s[i])
    requires k == |s| || !IsNameChar(s[k])
    ensures NameEnd(s) == k
  {
    RunLenIs(s, 0, k, NameChars);
  }

  /** The pattern splits a well-formed requirement into its parts. */
  lemma {:induction false} MatchWellFormed(name: string, op: string, version: string)
    requires WellFormed(name, op, version)
    ensures MatchRequirement(name + op + version) == Some(Match(name, Some(op), Some(version)))
  {
    var s := name + op + version;
    var k := |name|;
    var e := k + |op|;
    WellFormedShape(name, op, version);
    ConcatSlices(name, op, version);
    MatchParts(s, k, e);
  }

  lemma ConcatSlices(name: string, op: string, version: string)
    ensures var s := name + op + version; var k := |name|; var e := k + |op|;
      s[..k] == name && s[k..e] == op && s[e..] == version
  {
  }

  /** The concatenation meets the preconditions of `MatchParts`. */
  lemma WellFormedShape(name: string, op: string, version: string)
    requires WellFormed(name, op, version)
    ensures var s := name + op + version; var k := |name|; var e := k + |op|;
      && 1 <= k < e < |s| && e <= k + 2 && Strs.IsAlnum(s[0]) && Strs.IsAlnum(s[k - 1])
      && (forall i :: 0 <= i < k ==> IsNameChar(s[i]))
      && IsOperatorChar(s[k]) && (e == k + 2 ==> s[k + 1] == '=')
      && (forall i :: e <= i < |s| ==> IsVersionChar(s[i]))
  {
    var s := name + op + version;
    var k := |name|;
    var e := k + |op|;
    assert s[0] == name[0] && s[k - 1] == name[k - 1];
    assert s[k] == op[0];
    forall i | 0 <= i < k ensures IsNameChar(s[i]) { assert s[i] == name[i]; }
    if |op| == 2 {
      assert s[k + 1] == op[1];
    }
    forall i | e <= i < |s| ensures IsVersionChar(s[i]) {
      assert s[i] == version[i - e];
    }
  }

  /** A well-formed requirement line parses back into its parts. */
  lemma ParseLineRoundTrip(name: string, op: string, version: string, sourceFile: string, lineNumber: int)
    requires WellFormed(name, op, version)
    ensures ParseLine(name + op + version, sourceFile, lineNumber) ==
      Some(Dependency(Normalize(name), name, Some(op + version), Some(version), Some(op), sourceFile, lineNumber))
  {
    CleanedWellFormed(name, op, version);
    MatchWellFormed(name, op, version);
  }

  /** A bare package name parses with no operator, version or spec. */
  lemma {:induction false} ParseBareName(name: string, sourceFile: string, lineNumber: int)
    requires |name| >= 1 && Strs.IsAlnum(name[0]) && Strs.IsAlnum(name[|name| - 1])
    requires forall i :: 0 <= i < |name| ==> IsNameChar(name[i])
    ensures ParseLine(name, sourceFile, lineNumber) ==
      Some(Dependency(Normalize(name), name, None, None, None, sourceFile, lineNumber))
  {
    NoHashNoSplit(name);
    Strs.StripNoSpace(name);
    assert Cleaned(name) == name;
    NotSkipped(name, |name|);
    var k := |name|;
    RunLenIs(name, 0, k, NameChars);
    assert NameEnd(name) == k;
    assert ExtrasEnd(name, k) == k;
    assert SkipSpace(name, k) == k;
    assert OperatorLen(name, k) == 0;
    assert RunLen(name, k, VersionChars) == 0;
    assert name[..k] == name;
  }

  // ---------------------------------------------------------------------
  // Files and the merge

  /** A requirements file: its path and the lines read from it. */
  datatype RequirementsFile = RequirementsFile(path: string, lines: seq<string>)

  /** `_parse_line` applied to each line, numbered from 1. */
  function ParsedLines(path: string, lines: seq<string>): (os: seq<Option<Dependency>>)
    ensures |os| == |lines|
  {
    seq(|lines|, i requires 0 <= i < |lines| => ParseLine(lines[i], path, i + 1))
  }

  /** The dependencies `parse_file` returns. */
  function FileDeps(path: string, lines: seq<string>): seq<Dependency> {
    Seqs.Somes(ParsedLines(path, lines))
  }

  /** A file's dependencies are exactly the lines that parse. */
  lemma {:induction false} FileDepsMembers(path: string, lines: seq<string>, d: Dependency)
    ensures d in FileDeps(path, lines) <==>
      exists i :: 0 <= i < |lines| && ParseLine(lines[i], path, i + 1) == Some(d)
  {
    var os := ParsedLines(path, lines);
    Seqs.SomesMembers(os, d);
    assert forall i :: 0 <= i < |lines| ==> os[i] == ParseLine(lines[i], path, i + 1);
  }

  /** Present values that come from `path`, each at its own position plus one,
      come out in increasing line order. */
  lemma {:induction false} SomesLines(os: seq<Option<Dependency>>, path: string)
    requires forall i :: 0 <= i < |os| && os[i].Some? ==> os[i].value.sourceFile == path && os[i].value.lineNumber == i + 1
    ensures forall k :: 0 <= k < |Seqs.Somes(os)| ==>
      Seqs.Somes(os)[k].sourceFile == path && 1 <= Seqs.Somes(os)[k].lineNumber <= |os|
    ensures forall k, l :: 0 <= k < l < |Seqs.Somes(os)| ==>
      Seqs.Somes(os)[k].lineNumber < Seqs.Somes(os)[l].lineNumber
    decreases |os|
  {
    if os != [] {
      var n := |os| - 1;
      SomesLines(os[..n], path);
    }
  }

  /** They come from this file, in increasing line order. */
  lemma FileDepsLines(path: string, lines: seq<string>)
    ensures forall k :: 0 <= k < |FileDeps(path, lines)| ==>
      FileDeps(path, lines)[k].sourceFile == path && 1 <= FileDeps(path, lines)[k].lineNumber <= |lines|
    ensures forall k, l :: 0 <= k < l < |FileDeps(path, lines)| ==>
      FileDeps(path, lines)[k].lineNumber < FileDeps(path, lines)[l].lineNumber
  {
    var os := ParsedLines(path, lines);
    forall i | 0 <= i < |os| && os[i].Some?
      ensures os[i].value.sourceFile == path && os[i].value.lineNumber == i + 1
    {
      ParseLineFields(lines[i], path, i + 1);
    }
    SomesLines(os, path);
  }

  /** All dependencies of the files, file after file. */
  function AllDeps(files: seq<RequirementsFile>): seq<Dependency>
    decreases |files|
  {
    if files == [] then []
    else AllDeps(files[..|files| - 1]) + FileDeps(files[|files| - 1].path, files[|files| - 1].lines)
  }

  /** The merge: later dependencies override earlier ones of the same name. */
  function Merge(deps: seq<Dependency>): Dict<string, Dependency>
    decreases |deps|
  {
    if deps == [] then Empty()
    else Merge(deps[..|deps| - 1]).Put(deps[|deps| - 1].name, deps[|deps| - 1])
  }

  lemma MergeSnoc(deps: seq<Dependency>, d: Dependency)
    ensures Merge(deps + [d]) == Merge(deps).Put(d.name, d)
  {
    assert (deps + [d])[..|deps|] == deps;
  }

  /** One step of merging a file's dependencies after those seen before. */
  lemma MergeStep(seen: seq<Dependency>, deps: seq<Dependency>, j: nat)
    requires j < |deps|
    ensures Merge(seen + deps[..j + 1]) == Merge(seen + deps[..j]).Put(deps[j].name, deps[j])
  {
    assert seen + deps[..j + 1] == (seen + deps[..j]) + [deps[j]];
    MergeSnoc(seen + deps[..j], deps[j]);
  }

  lemma {:induction false} MergeValid(deps: seq<Dependency>)
    ensures Merge(deps).Valid()
    decreases |deps|
  {
    if deps != [] {
      MergeValid(deps[..|deps| - 1]);
    }
  }

  /** Every stored dependency is filed under its own name. */
  lemma {:induction false} MergeKeyed(deps: seq<Dependency>, p: string)
    ensures p in Merge(deps).vals ==> Merge(deps).vals[p].name == p && Merge(deps).vals[p] in deps
    decreases |deps|
  {
    if deps != [] {
      MergeKeyed(deps[..|deps| - 1], p);
    }
  }

  /** There is an entry exactly for each name that occurs. */
  lemma {:induction false} MergeKeys(deps: seq<Dependency>, p: string)
    ensures p in Merge(deps).vals <==> exists i :: 0 <= i < |deps| && deps[i].name == p
    decreases |deps|
  {
    if deps != [] {
      var n := |deps| - 1;
      MergeKeys(deps[..n], p);
      if p != deps[n].name {
        forall i | 0 <= i < n ensures deps[..n][i] == deps[i] {}
      }
    }
  }

  /** For a repeated name the last occurrence wins. */
  lemma {:induction false} MergeLastWins(deps: seq<Dependency>, i: nat)
    requires i < |deps|
    requires forall j :: i < j < |deps| ==> deps[j].name != deps[i].name
    ensures deps[i].name in Merge(deps).vals && Merge(deps).vals[deps[i].name] == deps[i]
    decreases |deps|
  {
    var n := |deps| - 1;
    if i < n {
      assert deps[n].name != deps[i].name;
      assert deps[..n][i] == deps[i];
      MergeLastWins(deps[..n], i);
    }
  }

  predicate IsPinned(d: Dependency) { d.operator == Some("==") }
  predicate IsUnpinned(d: Dependency) { d.operator != Some("==") }

  datatype DepRecord = DepRecord(name: string, versionSpec: Option<string>, source: string, line: int)
  datatype DepSummary = DepSummary(
    totalDependencies: nat, pinnedDependencies: nat, unpinnedDependencies: nat, dependencies: seq<DepRecord>)

  class DependencyParser {
    var dependencies: Dict<string, Dependency>

    constructor ()
      ensures dependencies == Empty()
    {
      dependencies := Empty();
    }

    /** `parse_file` on the lines read from one file. */
    method ParseFile(path: string, lines: seq<string>) returns (deps: seq<Dependency>)
      ensures deps == FileDeps(path, lines)
    {
      deps := [];
      var i := 0;
      ghost var os := ParsedLines(path, lines);
      while i < |lines|
        invariant 0 <= i <= |lines|
        invariant deps == Seqs.Somes(os[..i])
      {
        var dep := ParseLine(lines[i], path, i + 1);
        assert os[i] == dep;
        Seqs.SomesNext(os, i);
        if dep.Some? {
          deps := deps + [dep.value];
        }
        i := i + 1;
      }
      assert os[..i] == os;
    }

    /** The merge loop of `parse_repository`, over the files found, in order. */
    method ParseRepository(files: seq<RequirementsFile>) returns (r: Dict<string, Dependency>)
      modifies this
      ensures dependencies == Merge(AllDeps(files)) && r == dependencies
      ensures dependencies.Valid()
    {
      dependencies := Empty();
      ghost var seen: seq<Dependency> := [];
      var f := 0;
      while f < |files|
        invariant 0 <= f <= |files|
        invariant seen == AllDeps(files[..f])
        invariant dependencies == Merge(seen)
      {
        assert files[..f + 1][..f] == files[..f];
        var deps := ParseFile(files[f].path, files[f].lines);
        MergeInto(seen, deps);
        seen := seen + deps;
        f := f + 1;
      }
      assert files[..f] == files;
      MergeValid(seen);
      r := dependencies;
    }

    /** The inner loop: each dependency of one file overrides any earlier
        entry of its name. */
    method MergeInto(ghost seen: seq<Dependency>, deps: seq<Dependency>)
      requires dependencies == Merge(seen)
      modifies this
      ensures dependencies == Merge(seen + deps)
    {
      var j := 0;
      assert seen + deps[..0] == seen;
      while j < |deps|
        invariant 0 <= j <= |deps|
        invariant dependencies == Merge(seen + deps[..j])
      {
        MergeStep(seen, deps, j);
        dependencies := dependencies.Put(deps[j].name, deps[j]);
        j := j + 1;
      }
      assert deps[..j] == deps;
    }

    /** `get_dependency`: looked up under the normalised name. */
    function GetDependency(packageName: string): Option<Dependency>
      reads this
    {
      dependencies.Get(Normalize(packageName))
    }

    function GetAllDependencies(): (r: seq<Dependency>)
      reads this
      requires dependencies.Valid()
      ensures |r| == dependencies.Size()
    {
      dependencies.Values()
    }

    function GetPinnedDependencies(): seq<Dependency>
      reads this
      requires dependencies.Valid()
    {
      Seqs.Filter(GetAllDependencies(), IsPinned)
    }

    function GetUnpinnedDependencies(): seq<Dependency>
      reads this
      requires dependencies.Valid()
    {
      Seqs.Filter(GetAllDependencies(), IsUnpinned)
    }

    /** `export_summary`: pinned and unpinned add up to the total. */
    function ExportSummary(): (s: DepSummary)
      reads this
      requires dependencies.Valid()
      ensures s.totalDependencies == s.pinnedDependencies + s.unpinnedDependencies == |s.dependencies|
      ensures s.pinnedDependencies == |GetPinnedDependencies()|
      ensures s.totalDependencies == dependencies.Size()
      ensures forall i :: 0 <= i < |s.dependencies| ==>
        s.dependencies[i].name == dependencies.vals[dependencies.keys[i]].name &&
        s.dependencies[i].line == dependencies.vals[dependencies.keys[i]].lineNumber
    {
      var all := GetAllDependencies();
      Seqs.FilterPartition(all, IsPinned, IsUnpinned);
      DepSummary(|all|, |GetPinnedDependencies()|, |GetUnpinnedDependencies()|,
        seq(|all|, i requires 0 <= i < |all| =>
          DepRecord(all[i].name, all[i].versionSpec, all[i].sourceFile, all[i].lineNumber)))
    }
  }

  /** Pinned and unpinned dependencies partition the dependencies. */
  lemma PinnedPartition(p: DependencyParser)
    requires p.dependencies.Valid()
    ensures forall d :: d in p.GetAllDependencies() ==>
      (d in p.GetPinnedDependencies() <==> d !in p.GetUnpinnedDependencies())
    ensures |p.GetPinnedDependencies()| + |p.GetUnpinnedDependencies()| == |p.GetAllDependencies()|
  {
    Seqs.FilterPartition(p.GetAllDependencies(), IsPinned, IsUnpinned);
  }

  /** Lookup normalises: any spelling of a name finds the same entry. */
  lemma GetDependencyNormalizes(p: DependencyParser, packageName: string)
    ensures p.GetDependency(packageName) == p.GetDependency(Normalize(packageName))
  {
    NormalizeIdempotent(packageName);
  }

  /** After the merge, a parsed dependency that no later line overrides is
      found under its raw name as written in the file. */
  lemma FoundByRawName(p: DependencyParser, files: seq<RequirementsFile>, i: nat)
    requires p.dependencies == Merge(AllDeps(files))
    requires i < |AllDeps(files)|
    requires AllDeps(files)[i].name == Normalize(AllDeps(files)[i].rawName)
    requires forall j :: i < j < |AllDeps(files)| ==> AllDeps(files)[j].name != AllDeps(files)[i].name
    ensures p.GetDependency(AllDeps(files)[i].rawName) == Some(AllDeps(files)[i])
  {
    MergeLastWins(AllDeps(files), i);
  }
}
