/**
 * The fix generator (core/ai_fixer.py). The language model is outside the
 * model: its reply (or its failure) is an input, and so is the JSON decoder
 * with the `float` conversion of the confidence.
 */
module AIFixer {
  import opened Wrappers
  import Strs
  import IM = ImpactMapper

  datatype AIFix = AIFix(
    packageName: string, currentVersion: string, latestVersion: string,
    filePath: string, lineNumber: int, originalCode: string,
    explanation: string, fixedCode: string, migrationNotes: string, confidence: real)

  /** What `json.loads` gives for a reply: each field present or missing. */
  datatype LlmReply = LlmReply(
    explanation: Option<string>, fixedCode: Option<string>,
    migrationNotes: Option<string>, confidence: Option<real>)

  const FallbackConfidence: real := 0.3
  const DefaultConfidence: real := 0.5
  const NoExplanation := "No explanation provided"

  // ---------------------------------------------------------------------
  // `_generate_fallback_fix`

  function FallbackHeader(code: IM.ImpactedCode): string {
    "# TODO: Update for " + code.packageName + " " + code.latestVersion + "\n"
  }

  /** The fixed part of the fallback's migration notes. */
  const MigrationSteps: string :=
    ".\n\nCommon migration steps:\n1. Check the package changelog for breaking changes\n" +
    "2. Update API calls to match the new version\n3. Test thoroughly before deploying\n" +
    "4. Consider using version pinning during migration\n"

  function FallbackNotes(code: IM.ImpactedCode): string {
    Strs.Strip("\nPlease review the official migration guide for " + code.packageName + " " + code.latestVersion +
      MigrationSteps)
  }

  function FallbackFix(code: IM.ImpactedCode): AIFix {
    AIFix(code.packageName, code.currentVersion, code.latestVersion, code.filePath, code.lineNumber,
      code.context,
      "Breaking change detected in " + code.packageName + " from version " + code.currentVersion +
        " to " + code.latestVersion + ". Manual review required.",
      FallbackHeader(code) + code.context,
      FallbackNotes(code),
      FallbackConfidence)
  }

  /** The fallback's fixed code is a one-line TODO header followed by the
      original line, unchanged. */
  lemma FallbackFixedCode(code: IM.ImpactedCode)
    requires '\n' !in code.packageName && '\n' !in code.latestVersion
    ensures var f := FallbackFix(code).fixedCode; var i := Strs.IndexOf(f, '\n');
      && "# TODO: Update for " <= f[..i]
      && f[i + 1..] == code.context
  {
    var h := FallbackHeader(code);
    var f := h + code.context;
    assert h[..|h| - 1] == "# TODO: Update for " + code.packageName + " " + code.latestVersion;
    assert '\n' !in h[..|h| - 1];
    assert f[..|h| - 1] == h[..|h| - 1];
    Strs.IndexOfAt(f, '\n', |h| - 1);
  }

  // ---------------------------------------------------------------------
  // Code-fence stripping in `_parse_llm_response`

  const JsonFence := "```json"
  const Fence := "```"

  function StripFences(content: string): string {
    if Strs.Contains(content, JsonFence) then
      var start := Strs.Find(content, JsonFence, 0) + 7;
      var end := Strs.Find(content, Fence, start);
      Strs.Strip(Strs.Slice(content, start, end))
    else if Strs.Contains(content, Fence) then
      var start := Strs.Find(content, Fence, 0) + 3;
      var end := Strs.Find(content, Fence, start);
      Strs.Strip(Strs.Slice(content, start, end))
    else content
  }

  lemma JsonFenceIsFence(content: string)
    ensures Strs.Contains(content, JsonFence) ==> Strs.Contains(content, Fence)
  {
    if Strs.Contains(content, JsonFence) {
      var r := Strs.Find(content, JsonFence, 0);
      assert content[r..r + 3] == content[r..r + 7][..3];
      assert Strs.OccursAt(content, Fence, r);
    }
  }

  /** A reply without a fence is decoded as it is. */
  lemma NoFenceUnchanged(content: string)
    requires !Strs.Contains(content, Fence)
    ensures StripFences(content) == content
  {
    JsonFenceIsFence(content);
  }

  /** The first occurrence of a pattern at `i`. */
  lemma {:induction false} FindIs(s: string, pat: string, start: nat, i: nat)
    requires |pat| > 0 && start <= i && Strs.OccursAt(s, pat, i)
    requires forall j :: start <= j < i ==> s[j] != pat[0]
    ensures Strs.Find(s, pat, start) == i
    decreases i - start
  {
    if start < i {
      assert s[start..start + |pat|][0] == s[start];
      FindIs(s, pat, start + 1, i);
    }
  }

  /** No occurrence of a pattern at or after `start`. */
  lemma FindNone(s: string, pat: string, start: nat)
    requires |pat| > 0
    requires forall j :: start <= j < |s| ==> s[j] != pat[0]
    ensures Strs.Find(s, pat, start) == -1
  {
    forall i: nat | start <= i ensures !Strs.OccursAt(s, pat, i) {
      if i + |pat| <= |s| {
        assert s[i..i + |pat|][0] == s[i];
      }
    }
  }

  /** A ```json block closed by a fence gives its body, stripped. */
  lemma JsonBlockRoundTrip(body: string)
    requires '`' !in body
    ensures StripFences(JsonFence + body + Fence) == Strs.Strip(body)
  {
    var c := JsonFence + body + Fence;
    assert c[..7] == JsonFence;
    FindIs(c, JsonFence, 0, 0);
    var e := 7 + |body|;
    assert c[e..e + 3] == Fence;
    forall j | 7 <= j < e ensures c[j] != '`' { assert c[j] == body[j - 7]; }
    FindIs(c, Fence, 7, e);
    assert c[7..e] == body;
  }

  /** A ```json block with no closing fence loses its last character:
      `find` gives -1 and the slice `[start:-1]` stops one short. */
  lemma UnclosedJsonBlockDropsLast(body: string)
    requires '`' !in body && |body| >= 1
    ensures StripFences(JsonFence + body) == Strs.Strip(body[..|body| - 1])
  {
    var c := JsonFence + body;
    assert c[..7] == JsonFence;
    FindIs(c, JsonFence, 0, 0);
    forall j | 7 <= j < |c| ensures c[j] != '`' { assert c[j] == body[j - 7]; }
    FindNone(c, Fence, 7);
    assert Strs.Slice(c, 7, -1) == body[..|body| - 1];
  }

  /** A plain ``` block closed by a fence gives its body, stripped, when the
      body does not itself start with `json`. */
  lemma PlainBlockRoundTrip(body: string)
    requires '`' !in body && !("json" <= body)
    ensures StripFences(Fence + body + Fence) == Strs.Strip(body)
  {
    var c := Fence + body + Fence;
    var e := 3 + |body|;
    NoJsonFenceInPlainBlock(body);
    assert c[..3] == Fence;
    FindIs(c, Fence, 0, 0);
    assert c[e..e + 3] == Fence;
    forall j | 3 <= j < e ensures c[j] != '`' { assert c[j] == body[j - 3]; }
    FindIs(c, Fence, 3, e);
    assert c[3..e] == body;
  }

  /** Such a block holds no ```json fence. */
  lemma NoJsonFenceInPlainBlock(body: string)
    requires '`' !in body && !("json" <= body)
    ensures !Strs.Contains(Fence + body + Fence, JsonFence)
  {
    var c := Fence + body + Fence;
    var e := 3 + |body|;
    forall j | 3 <= j < e ensures c[j] == body[j - 3] {}
    forall i: nat | i + 7 <= |c| ensures !Strs.OccursAt(c, JsonFence, i) {
      var j := if i >= 3 then i else if i > 0 || |body| < 4 then (if i > 0 then 3 else e) else 3;
      if i == 0 && |body| >= 4 {
        assert c[3..7] == body[..4];
        assert c[i..i + 7][3..] == c[3..7];
      } else {
        assert c[j] != JsonFence[j - i];
        assert c[i..i + 7][j - i] == c[j];
      }
    }
  }

  // ---------------------------------------------------------------------
  // `_parse_llm_response` and `generate_fix`

  /** The fix built from a decoded reply, with the defaults for missing fields. */
  function FixFromReply(code: IM.ImpactedCode, r: LlmReply): AIFix {
    AIFix(code.packageName, code.currentVersion, code.latestVersion, code.filePath, code.lineNumber,
      code.context,
      r.explanation.GetOr(NoExplanation),
      r.fixedCode.GetOr(code.context),
      r.migrationNotes.GetOr(""),
      r.confidence.GetOr(DefaultConfidence))
  }

  /** `_parse_llm_response`: strip fences, decode, fall back when decoding fails. */
  function ParseLlmResponse(code: IM.ImpactedCode, content: string, decode: string -> Option<LlmReply>): AIFix {
    match decode(StripFences(content))
    case Some(r) => FixFromReply(code, r)
    case None => FallbackFix(code)
  }

  /** `generate_fix`: `reply` is the model's answer, or None when the call raised. */
  function GenerateFix(code: IM.ImpactedCode, llmAvailable: bool, reply: Option<string>,
                       decode: string -> Option<LlmReply>): AIFix
  {
    if !llmAvailable then FallbackFix(code)
    else match reply
      case None => FallbackFix(code)
      case Some(content) => ParseLlmResponse(code, content, decode)
  }

  /** Every fix, however obtained, is about the impacted line it was asked
      for and keeps that line as its original code. */
  lemma GenerateFixLocation(code: IM.ImpactedCode, llmAvailable: bool, reply: Option<string>,
                            decode: string -> Option<LlmReply>)
    ensures var f := GenerateFix(code, llmAvailable, reply, decode);
      && f.packageName == code.packageName
      && f.currentVersion == code.currentVersion && f.latestVersion == code.latestVersion
      && f.filePath == code.filePath && f.lineNumber == code.lineNumber
      && f.originalCode == code.context
  {
  }

  /** The fallback is used when no model is available, the call failed, or
      its reply does not decode. */
  lemma GenerateFixFallsBack(code: IM.ImpactedCode, llmAvailable: bool, reply: Option<string>,
                             decode: string -> Option<LlmReply>)
    requires !llmAvailable || reply.None? || decode(StripFences(reply.value)).None?
    ensures GenerateFix(code, llmAvailable, reply, decode) == FallbackFix(code)
  {
  }

  /** Otherwise the fix takes the decoded fields, with the defaults for
      missing ones. */
  lemma GenerateFixFromReply(code: IM.ImpactedCode, reply: string, decode: string -> Option<LlmReply>)
    requires decode(StripFences(reply)).Some?
    ensures var r := decode(StripFences(reply)).value; var f := GenerateFix(code, true, Some(reply), decode);
      && f.fixedCode == (if r.fixedCode.Some? then r.fixedCode.value else code.context)
      && f.explanation == (if r.explanation.Some? then r.explanation.value else NoExplanation)
      && f.migrationNotes == (if r.migrationNotes.Some? then r.migrationNotes.value else "")
      && f.confidence == (if r.confidence.Some? then r.confidence.value else DefaultConfidence)
  {
  }

  // ---------------------------------------------------------------------
  // `export_fix_report`

  function SumConfidence(fixes: seq<AIFix>): real
    decreases |fixes|
  {
    if fixes == [] then 0.0 else SumConfidence(fixes[..|fixes| - 1]) + fixes[|fixes| - 1].confidence
  }

  /** `average_confidence`: the mean, or 0 for no fixes. */
  function AverageConfidence(fixes: seq<AIFix>): real {
    if |fixes| > 0 then SumConfidence(fixes) / (|fixes| as real) else 0.0
  }

  lemma {:induction false} SumConfidenceBounds(fixes: seq<AIFix>, lo: real, hi: real)
    requires forall i :: 0 <= i < |fixes| ==> lo <= fixes[i].confidence <= hi
    ensures (|fixes| as real) * lo <= SumConfidence(fixes) <= (|fixes| as real) * hi
    decreases |fixes|
  {
    if fixes != [] {
      SumConfidenceBounds(fixes[..|fixes| - 1], lo, hi);
    }
  }

  /** Confidences between 0 and 1 average between 0 and 1. */
  lemma AverageConfidenceBounds(fixes: seq<AIFix>)
    requires forall i :: 0 <= i < |fixes| ==> 0.0 <= fixes[i].confidence <= 1.0
    ensures 0.0 <= AverageConfidence(fixes) <= 1.0
  {
    SumConfidenceBounds(fixes, 0.0, 1.0);
  }

  /** When every fix is a fallback the average is the fallback confidence. */
  lemma AllFallbackAverage(fixes: seq<AIFix>)
    requires |fixes| > 0
    requires forall i :: 0 <= i < |fixes| ==> fixes[i].confidence == FallbackConfidence
    ensures AverageConfidence(fixes) == FallbackConfidence
  {
    SumConfidenceBounds(fixes, FallbackConfidence, FallbackConfidence);
  }

  datatype FixRecord = FixRecord(
    package: string, versionChange: string, file: string, line: int, originalCode: string,
    explanation: string, fixedCode: string, migrationNotes: string, confidence: real)

  datatype FixReport = FixReport(totalFixes: nat, averageConfidence: real, fixes: seq<FixRecord>)

  function FixRecordOf(f: AIFix): FixRecord {
    FixRecord(f.packageName, f.currentVersion + " -> " + f.latestVersion, f.filePath, f.lineNumber,
      f.originalCode, f.explanation, f.fixedCode, f.migrationNotes, f.confidence)
  }

  class AIFixer {
    const apiKey: Option<string>
    const model: string
    const llmAvailable: bool

    /** The key given, else the one from the environment; the model is usable
        when the client library is installed and there is a non-empty key. */
    constructor (givenKey: Option<string>, environmentKey: Option<string>, model: string, clientInstalled: bool)
      ensures apiKey == (if givenKey.Some? && givenKey.value != "" then givenKey else environmentKey)
      ensures llmAvailable <==> clientInstalled && apiKey.Some? && apiKey.value != ""
      ensures this.model == model
    {
      var key := if givenKey.Some? && givenKey.value != "" then givenKey else environmentKey;
      apiKey := key;
      this.model := model;
      llmAvailable := clientInstalled && key.Some? && key.value != "";
    }

    /** `generate_fixes_for_impact`: one fix per impacted line, in order;
        `replies[i]` is the model's answer for the i-th line. */
    method GenerateFixesForImpact(impact: IM.BreakingChangeImpact, replies: seq<Option<string>>,
                                  decode: string -> Option<LlmReply>) returns (fixes: seq<AIFix>)
      requires |replies| == |impact.impactedCode|
      ensures |fixes| == |impact.impactedCode|
      ensures forall i :: 0 <= i < |fixes| ==>
        fixes[i] == GenerateFix(impact.impactedCode[i], llmAvailable, replies[i], decode)
      ensures forall i :: 0 <= i < |fixes| ==>
        fixes[i].filePath == impact.impactedCode[i].filePath &&
        fixes[i].lineNumber == impact.impactedCode[i].lineNumber &&
        fixes[i].originalCode == impact.impactedCode[i].context
      ensures !llmAvailable ==> forall i :: 0 <= i < |fixes| ==> fixes[i] == FallbackFix(impact.impactedCode[i])
    {
      fixes := [];
      var i := 0;
      while i < |impact.impactedCode|
        invariant 0 <= i <= |impact.impactedCode|
        invariant |fixes| == i
        invariant forall k :: 0 <= k < i ==>
          fixes[k] == GenerateFix(impact.impactedCode[k], llmAvailable, replies[k], decode)
      {
        var fix := GenerateFix(impact.impactedCode[i], llmAvailable, replies[i], decode);
        fixes := fixes + [fix];
        i := i + 1;
      }
      forall k | 0 <= k < |fixes|
        ensures fixes[k].filePath == impact.impactedCode[k].filePath
        ensures fixes[k].lineNumber == impact.impactedCode[k].lineNumber
        ensures fixes[k].originalCode == impact.impactedCode[k].context
      {
        GenerateFixLocation(impact.impactedCode[k], llmAvailable, replies[k], decode);
      }
    }

    /** `export_fix_report`. */
    function ExportFixReport(fixes: seq<AIFix>): (r: FixReport)
      ensures r.totalFixes == |fixes| == |r.fixes|
      ensures forall i :: 0 <= i < |fixes| ==>
        r.fixes[i].file == fixes[i].filePath && r.fixes[i].line == fixes[i].lineNumber &&
        r.fixes[i].confidence == fixes[i].confidence
      ensures (forall i :: 0 <= i < |fixes| ==> 0.0 <= fixes[i].confidence <= 1.0) ==>
        0.0 <= r.averageConfidence <= 1.0
      ensures fixes == [] ==> r.averageConfidence == 0.0
    {
      assert (forall i :: 0 <= i < |fixes| ==> 0.0 <= fixes[i].confidence <= 1.0) ==>
        0.0 <= AverageConfidence(fixes) <= 1.0 by {
        if forall i :: 0 <= i < |fixes| ==> 0.0 <= fixes[i].confidence <= 1.0 {
          AverageConfidenceBounds(fixes);
        }
      }
      FixReport(|fixes|, AverageConfidence(fixes), seq(|fixes|, i requires 0 <= i < |fixes| => FixRecordOf(fixes[i])))
    }
  }
}
