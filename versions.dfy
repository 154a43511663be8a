/**
 * VersionChecker (core/pathway_stream.py): parse version strings and classify
 * an upgrade from the declared version to the registry's latest one.
 *
 * A version is its release segment, `N(.N)*`, compared as in PEP 440's
 * "Final releases" rule: component by component, the shorter one padded with
 * zeros, so `1.0` and `1.0.0` are equal. "Breaking" is the heuristic of the
 * source: the major (first) component went up.
 */
module Versions {
  import opened Wrappers
  import Strs

  datatype Version = Version(release: seq<nat>)

  /** The outcome of `compare_versions`. */
  datatype Status = Unknown | UpToDate | Outdated | Breaking | Ahead

  predicate AllDigits(s: string) {
    |s| > 0 && forall i :: 0 <= i < |s| ==> Strs.IsDigit(s[i])
  }

  function DecimalValue(s: string): nat
    requires forall i :: 0 <= i < |s| ==> Strs.IsDigit(s[i])
    decreases |s|
  {
    if s == [] then 0
    else
      assert Strs.IsDigit(s[|s| - 1]);
      DecimalValue(s[..|s| - 1]) * 10 + (s[|s| - 1] as int - '0' as int)
  }

  function DigitChar(d: nat): char
    requires d < 10
  {
    ('0' as int + d) as char
  }

  /** The decimal spelling of `n`, without leading zeros. */
  function NatToString(n: nat): (s: string)
    ensures AllDigits(s)
    decreases n
  {
    if n < 10 then [DigitChar(n)] else NatToString(n / 10) + [DigitChar(n % 10)]
  }

  lemma {:induction false} DecimalValueOfNatToString(n: nat)
    ensures DecimalValue(NatToString(n)) == n
    decreases n
  {
    if n >= 10 {
      var s := NatToString(n / 10) + [DigitChar(n % 10)];
      assert s[..|s| - 1] == NatToString(n / 10);
      DecimalValueOfNatToString(n / 10);
    }
  }

  /** The release segment `N(.N)*`: every dot-separated part is a non-empty
      run of digits (leading zeros allowed, as in PEP 440). */
  function ParseRelease(body: string): (r: Option<Version>)
    ensures r.Some? ==> |r.value.release| >= 1
  {
    var parts := Strs.Split(body, '.');
    if forall k :: 0 <= k < |parts| ==> AllDigits(parts[k])
    then Some(Version(seq(|parts|, k requires 0 <= k < |parts| => DecimalValue(parts[k]))))
    else None
  }

  /** `packaging.version.parse`, restricted to release-only versions: surrounding
      whitespace and a leading `v` are accepted as PEP 440 allows; anything else
      that is not `N(.N)*` is rejected (None). */
  function ParseVersion(s: string): Option<Version> {
    var t := Strs.Strip(s);
    ParseRelease(if |t| > 0 && (t[0] == 'v' || t[0] == 'V') then t[1..] else t)
  }

  /** The canonical spelling of a release: `1.4.2`. */
  function FormatVersion(v: Version): string {
    Strs.Join(Spellings(v), '.')
  }

  function Spellings(v: Version): (parts: seq<string>)
    ensures |parts| == |v.release|
    ensures forall k :: 0 <= k < |parts| ==> AllDigits(parts[k])
  {
    seq(|v.release|, k requires 0 <= k < |v.release| => NatToString(v.release[k]))
  }

  lemma ParseReleaseOfJoin(v: Version)
    requires |v.release| >= 1
    ensures ParseRelease(FormatVersion(v)) == Some(v)
  {
    var parts := Spellings(v);
    forall k | 0 <= k < |parts| ensures '.' !in parts[k] {
      assert AllDigits(parts[k]);
    }
    Strs.SplitJoin(parts, '.');
    forall k | 0 <= k < |parts| ensures DecimalValue(parts[k]) == v.release[k] {
      DecimalValueOfNatToString(v.release[k]);
    }
    var vals := seq(|parts|, k requires 0 <= k < |parts| => DecimalValue(parts[k]));
    assert vals == v.release;
    assert Strs.Split(FormatVersion(v), '.') == parts;
  }

  lemma FormatEnds(v: Version)
    requires |v.release| >= 1
    ensures var s := FormatVersion(v); |s| >= 1 && Strs.IsDigit(s[0]) && Strs.IsDigit(s[|s| - 1])
  {
    var parts := Spellings(v);
    JoinHead(parts, '.');
    JoinLast(parts, '.');
    assert AllDigits(parts[0]) && AllDigits(parts[|parts| - 1]);
  }

  /** Parsing the canonical spelling gives the version back. */
  lemma ParseFormat(v: Version)
    requires |v.release| >= 1
    ensures ParseVersion(FormatVersion(v)) == Some(v)
  {
    var s := FormatVersion(v);
    FormatEnds(v);
    Strs.StripNoSpace(s);
    ParseReleaseOfJoin(v);
  }

  lemma {:induction false} JoinHead(parts: seq<string>, sep: char)
    requires |parts| >= 1 && |parts[0]| >= 1
    ensures |Strs.Join(parts, sep)| >= 1 && Strs.Join(parts, sep)[0] == parts[0][0]
  {
  }

  lemma {:induction false} JoinLast(parts: seq<string>, sep: char)
    requires |parts| >= 1 && |parts[|parts| - 1]| >= 1
    ensures var s := Strs.Join(parts, sep);
      |s| >= 1 && s[|s| - 1] == parts[|parts| - 1][|parts[|parts| - 1]| - 1]
    decreases |parts|
  {
    if |parts| > 1 {
      JoinLast(parts[1..], sep);
    }
  }

  /** Component `i` of a release, zero past its end. */
  function At(r: seq<nat>, i: nat): nat {
    if i < |r| then r[i] else 0
  }

  function Major(v: Version): nat {
    At(v.release, 0)
  }

  function CompareFrom(a: seq<nat>, b: seq<nat>, i: nat): int
    decreases (if |a| > |b| then |a| else |b|) - i
  {
    if i >= |a| && i >= |b| then 0
    else if At(a, i) < At(b, i) then -1
    else if At(a, i) > At(b, i) then 1
    else CompareFrom(a, b, i + 1)
  }

  /** -1, 0 or 1 as `a` is older than, equal to or newer than `b`. */
  function Compare(a: Version, b: Version): int {
    CompareFrom(a.release, b.release, 0)
  }

  /** Equality under zero padding: the same component at every index. */
  ghost predicate SameRelease(a: Version, b: Version) {
    forall i: nat :: At(a.release, i) == At(b.release, i)
  }

  lemma {:induction false} CompareFromZeroIff(a: seq<nat>, b: seq<nat>, i: nat)
    ensures CompareFrom(a, b, i) == 0 <==> forall j: nat :: i <= j ==> At(a, j) == At(b, j)
    ensures CompareFrom(a, b, i) in {-1, 0, 1}
    decreases (if |a| > |b| then |a| else |b|) - i
  {
    if i >= |a| && i >= |b| {
    } else if At(a, i) != At(b, i) {
    } else {
      CompareFromZeroIff(a, b, i + 1);
      if CompareFrom(a, b, i) == 0 {
        forall j: nat | i <= j ensures At(a, j) == At(b, j) {
          if j > i { }
        }
      }
    }
  }

  /** Two versions compare equal exactly when they agree after zero padding. */
  lemma CompareZeroIff(a: Version, b: Version)
    ensures Compare(a, b) == 0 <==> SameRelease(a, b)
  {
    CompareFromZeroIff(a.release, b.release, 0);
  }

  lemma {:induction false} CompareFromAntisymmetric(a: seq<nat>, b: seq<nat>, i: nat)
    ensures CompareFrom(a, b, i) == -CompareFrom(b, a, i)
    decreases (if |a| > |b| then |a| else |b|) - i
  {
    if !(i >= |a| && i >= |b|) && At(a, i) == At(b, i) {
      CompareFromAntisymmetric(a, b, i + 1);
    }
  }

  /** Swapping the arguments flips the comparison. */
  lemma CompareAntisymmetric(a: Version, b: Version)
    ensures Compare(a, b) == -Compare(b, a)
  {
    CompareFromAntisymmetric(a.release, b.release, 0);
  }

  lemma {:induction false} CompareFromTransitive(a: seq<nat>, b: seq<nat>, c: seq<nat>, i: nat)
    requires CompareFrom(a, b, i) < 0 && CompareFrom(b, c, i) < 0
    ensures CompareFrom(a, c, i) < 0
    decreases (if |a| > |b| then |a| else |b|) - i
  {
    if At(a, i) == At(b, i) && At(b, i) == At(c, i) {
      CompareFromTransitive(a, b, c, i + 1);
    }
  }

  /** "Older than" is transitive. */
  lemma CompareTransitive(a: Version, b: Version, c: Version)
    requires Compare(a, b) < 0 && Compare(b, c) < 0
    ensures Compare(a, c) < 0
  {
    CompareFromTransitive(a.release, b.release, c.release, 0);
  }

  lemma {:induction false} ZeroesNotNewer(a: seq<nat>, b: seq<nat>, i: nat)
    requires forall k :: 0 <= k < |a| ==> a[k] == 0
    ensures CompareFrom(a, b, i) <= 0
    decreases (if |a| > |b| then |a| else |b|) - i
  {
    if !(i >= |a| && i >= |b|) && At(a, i) == At(b, i) {
      ZeroesNotNewer(a, b, i + 1);
    }
  }

  /** `is_breaking_change`: both sides parse and the major component went up. */
  function IsBreakingChange(current: string, latest: string): bool {
    match (ParseVersion(current), ParseVersion(latest))
    case (Some(c), Some(l)) => Major(l) > Major(c)
    case _ => false
  }

  /** `compare_versions`. */
  function CompareVersions(current: string, latest: string): Status {
    match (ParseVersion(current), ParseVersion(latest))
    case (Some(c), Some(l)) =>
      if Compare(c, l) == 0 then UpToDate
      else if Compare(c, l) < 0 then (if IsBreakingChange(current, latest) then Breaking else Outdated)
      else Ahead
    case _ => Unknown
  }

  /** A breaking change is always an upgrade: the latest version is newer. */
  lemma BreakingIsNewer(current: string, latest: string)
    requires IsBreakingChange(current, latest)
    ensures ParseVersion(current).Some? && ParseVersion(latest).Some?
    ensures Compare(ParseVersion(current).value, ParseVersion(latest).value) < 0
  {
  }

  /** Without epochs, `compare_versions` says `breaking` exactly when
      `is_breaking_change` holds, so the two filters built on them agree. */
  lemma StatusBreakingIff(current: string, latest: string)
    ensures CompareVersions(current, latest) == Breaking <==> IsBreakingChange(current, latest)
  {
    if IsBreakingChange(current, latest) {
      BreakingIsNewer(current, latest);
    }
  }

  /** The classification in terms of the parsed versions: unknown iff a side
      does not parse; otherwise up-to-date iff equal after zero padding, ahead
      iff newer, and outdated iff older by a non-major bump. */
  lemma StatusMeaning(current: string, latest: string)
    ensures CompareVersions(current, latest) == Unknown <==>
      ParseVersion(current).None? || ParseVersion(latest).None?
    ensures CompareVersions(current, latest) == UpToDate <==>
      ParseVersion(current).Some? && ParseVersion(latest).Some? &&
      SameRelease(ParseVersion(current).value, ParseVersion(latest).value)
    ensures CompareVersions(current, latest) == Outdated <==>
      ParseVersion(current).Some? && ParseVersion(latest).Some? &&
      Compare(ParseVersion(current).value, ParseVersion(latest).value) < 0 &&
      Major(ParseVersion(latest).value) <= Major(ParseVersion(current).value)
  {
    match (ParseVersion(current), ParseVersion(latest))
    case (Some(c), Some(l)) =>
      CompareZeroIff(c, l);
    case _ =>
  }

  lemma ParsePlaceholder()
    ensures ParseVersion("0.0.0") == Some(Version([0, 0, 0]))
  {
    var zero := Version([0, 0, 0]);
    assert FormatVersion(zero) == "0.0.0" by {
      assert NatToString(0) == "0";
      assert Spellings(zero) == ["0", "0", "0"];
      assert ["0", "0", "0"][1..] == ["0", "0"];
      assert ["0", "0"][1..] == ["0"];
      assert Strs.Join(["0"], '.') == "0";
      assert Strs.Join(["0", "0"], '.') == "0.0";
    }
    ParseFormat(zero);
  }

  /** The "0.0.0" placeholder for an unspecified version is never newer than a
      parsable registry version: the result is up-to-date, outdated or breaking. */
  lemma PlaceholderNeverAhead(latest: string)
    requires ParseVersion(latest).Some?
    ensures CompareVersions("0.0.0", latest) in {UpToDate, Outdated, Breaking}
  {
    ParsePlaceholder();
    ZeroesNotNewer([0, 0, 0], ParseVersion(latest).value.release, 0);
  }
}
