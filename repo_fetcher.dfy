/**
 * The repository fetcher (core/repo_fetcher.py): the repository name taken
 * from a clone URL, the checks on a local directory, and the choice between
 * the cached clone and a fresh one. What the file system and `git` report
 * is given as input.
 */
module RepoFetcher {
  import opened Wrappers
  import Strs

  // ---------------------------------------------------------------------
  // The path component of `urllib.parse.urlparse`

  predicate IsSchemeChar(c: char) { Strs.IsAlnum(c) || c == '+' || c == '-' || c == '.' }

  /** The scheme, lower-cased, and the rest of the URL; no scheme when the
      text before the first `:` is not a valid one. */
  function SplitScheme(url: string): (string, string) {
    if ':' in url then
      var i := Strs.IndexOf(url, ':');
      if i > 0 && (Strs.IsUpper(url[0]) || Strs.IsLowerLetter(url[0])) &&
         (forall k :: 0 <= k < i ==> IsSchemeChar(url[k]))
      then (Strs.Lower(url[..i]), url[i + 1..])
      else ("", url)
    else ("", url)
  }

  predicate EndsNetloc(c: char) { c == '/' || c == '?' || c == '#' }

  /** The first index at or after `i` that ends the network location. */
  function NetlocEnd(s: string, i: nat): (r: nat)
    requires i <= |s|
    ensures i <= r <= |s|
    ensures r == |s| || EndsNetloc(s[r])
    ensures forall k :: i <= k < r ==> !EndsNetloc(s[k])
    decreases |s| - i
  {
    if i == |s| || EndsNetloc(s[i]) then i else NetlocEnd(s, i + 1)
  }

  /** `s.split(c, 1)[0]`. */
  function Cut(s: string, c: char): (r: string)
    ensures c !in r && r <= s
  {
    if c in s then s[..Strs.IndexOf(s, c)] else s
  }

  /** Schemes for which `urlparse` splits `;params` off the last segment. */
  const UsesParams: seq<string> := ["", "ftp", "hdl", "prospero", "http", "imap", "https", "shttp",
    "rtsp", "rtsps", "rtspu", "sip", "sips", "mms", "sftp", "tel"]

  /** The index of the last `c` in `s`, or -1. */
  function LastIndexOf(s: string, c: char): (r: int)
    ensures -1 <= r < |s|
    ensures r >= 0 ==> s[r] == c
    ensures r == -1 ==> c !in s
    decreases |s|
  {
    if s == [] then -1
    else if s[|s| - 1] == c then |s| - 1
    else LastIndexOf(s[..|s| - 1], c)
  }

  /** `_splitparams`: the path without `;params` of its last segment. */
  function StripParams(path: string): string {
    if '/' in path then
      var i := Strs.Find(path, ";", LastIndexOf(path, '/') as nat);
      if i < 0 then path else path[..i]
    else if ';' in path then path[..Strs.IndexOf(path, ';')]
    else path
  }

  function UrlPath(url: string): string {
    var (scheme, rest) := SplitScheme(url);
    var afterNetloc := if |rest| >= 2 && rest[..2] == "//" then rest[NetlocEnd(rest, 2)..] else rest;
    var path := Cut(Cut(afterNetloc, '#'), '?');
    if scheme in UsesParams && ';' in path then StripParams(path) else path
  }

  // ---------------------------------------------------------------------
  // `_extract_repo_name`

  function ExtractRepoName(url: string): Option<string> {
    if "git@" <= url then
      var parts := Strs.Split(url, ':');
      if |parts| == 2 then Some(Strs.ReplaceChar(Strs.ReplaceAll(parts[1], ".git", ""), '/', '_'))
      else None
    else NameOfPath(UrlPath(url))
  }

  /** The name taken from the path of an HTTPS URL. */
  function NameOfPath(urlPath: string): Option<string> {
    var path := Strs.ReplaceAll(Strs.StripChar(urlPath, '/'), ".git", "");
    if path != [] then Some(Strs.ReplaceChar(path, '/', '_')) else None
  }

  /** A repository name never contains `/`. It can still be `.` or `..`
      (see `DotDotName`), which names the cache itself or its parent. */
  lemma RepoNameFlat(url: string)
    ensures ExtractRepoName(url).Some? ==> '/' !in ExtractRepoName(url).value
  {
    if "git@" <= url {
      var parts := Strs.Split(url, ':');
      if |parts| == 2 {
        Strs.ReplaceCharRemoves(Strs.ReplaceAll(parts[1], ".git", ""), '/', '_');
      }
    } else {
      var path := Strs.ReplaceAll(Strs.StripChar(UrlPath(url), '/'), ".git", "");
      Strs.ReplaceCharRemoves(path, '/', '_');
    }
  }

  /** The name can be `..`: `git@github.com:..` passes the extraction. */
  lemma DotDotName()
    ensures ExtractRepoName("git@github.com:..") == Some("..")
  {
    SshShortName("git@github.com:..", "github.com", "..");
  }

  /** An SSH URL whose part after `:` is shorter than `.git` and has no `/`
      is named by that part as it stands. */
  lemma SshShortName(url: string, host: string, name: string)
    requires url == "git@" + host + ":" + name
    requires ':' !in host && ':' !in name && '/' !in name && |name| < 4
    ensures ExtractRepoName(url) == Some(name)
  {
    var h := 4 + |host|;
    assert url[..4] == "git@";
    assert url[..h] == "git@" + host;
    assert url[h] == ':' && ':' !in url[..h];
    Strs.IndexOfAt(url, ':', h);
    assert url[h + 1..] == name;
    assert Strs.Split(url, ':') == [url[..h]] + Strs.Split(name, ':');
    NoSlashReplace(name);
  }

  /** An owner or repository name as it appears in a GitHub URL. */
  predicate PlainSegment(s: string) {
    |s| >= 1 && forall i :: 0 <= i < |s| ==> Strs.IsAlnum(s[i]) || s[i] == '-' || s[i] == '_'
  }

  lemma {:induction false} ReplaceAllAbsent(s: string, pat: string)
    requires |pat| > 0 && pat[0] !in s
    ensures Strs.ReplaceAll(s, pat, "") == s
    decreases |s|
  {
    if |s| >= |pat| {
      assert s[0] != pat[0];
      ReplaceAllAbsent(s[1..], pat);
    }
  }

  /** Removing a suffix that starts with a character the rest does not hold. */
  lemma {:induction false} ReplaceAllSuffix(s: string, pat: string)
    requires |pat| > 0 && pat[0] !in s
    ensures Strs.ReplaceAll(s + pat, pat, "") == s
    decreases |s|
  {
    if s == [] {
      assert pat[|pat|..] == [];
    } else {
      assert (s + pat)[0] == s[0] != pat[0];
      assert (s + pat)[1..] == s[1..] + pat;
      ReplaceAllSuffix(s[1..], pat);
    }
  }

  lemma NoSlashReplace(s: string)
    requires '/' !in s
    ensures Strs.ReplaceChar(s, '/', '_') == s
  {
  }

  /** `owner/repo.git` becomes `owner_repo`. */
  lemma {:induction false} NameFromPath(owner: string, repo: string)
    requires PlainSegment(owner) && PlainSegment(repo)
    ensures Strs.ReplaceChar(Strs.ReplaceAll(owner + "/" + repo + ".git", ".git", ""), '/', '_') == owner + "_" + repo
  {
    var p := owner + "/" + repo;
    assert forall i :: 0 <= i < |p| ==> p[i] != '.' by {
      forall i | 0 <= i < |p| ensures p[i] != '.' {
        if i < |owner| { assert p[i] == owner[i]; }
        else if i > |owner| { assert p[i] == repo[i - |owner| - 1]; }
      }
    }
    ReplaceAllSuffix(p, ".git");
    var r := Strs.ReplaceChar(p, '/', '_');
    assert forall i :: 0 <= i < |owner| ==> r[i] == owner[i] by {
      forall i | 0 <= i < |owner| ensures r[i] == owner[i] { assert p[i] == owner[i]; }
    }
    assert forall i :: |owner| < i < |p| ==> r[i] == repo[i - |owner| - 1] by {
      forall i | |owner| < i < |p| ensures r[i] == repo[i - |owner| - 1] { assert p[i] == repo[i - |owner| - 1]; }
    }
    assert r == owner + "_" + repo;
  }

  lemma SegmentChars(owner: string, repo: string, i: nat)
    requires PlainSegment(owner) && PlainSegment(repo) && i < |owner + "/" + repo + ".git"|
    ensures var t := owner + "/" + repo + ".git"; t[i] != ':' && t[i] != '?' && t[i] != '#' && t[i] != ';'
  {
    var t := owner + "/" + repo + ".git";
    if i < |owner| { assert t[i] == owner[i]; }
    else if |owner| < i < |owner| + 1 + |repo| { assert t[i] == repo[i - |owner| - 1]; }
  }

  /** The SSH form `git@<host>:owner/repo.git` names `owner_repo`. */
  lemma {:induction false} SshUrlName(host: string, owner: string, repo: string)
    requires ':' !in host && PlainSegment(owner) && PlainSegment(repo)
    ensures ExtractRepoName("git@" + host + ":" + owner + "/" + repo + ".git") == Some(owner + "_" + repo)
  {
    var tail := owner + "/" + repo + ".git";
    var url := "git@" + host + ":" + tail;
    assert url == "git@" + host + ":" + owner + "/" + repo + ".git";
    forall i | 0 <= i < |tail| ensures tail[i] != ':' { SegmentChars(owner, repo, i); }
    var h := 4 + |host|;
    assert url[..4] == "git@";
    assert url[..h] == "git@" + host;
    assert url[h] == ':' && ':' !in url[..h];
    Strs.IndexOfAt(url, ':', h);
    assert url[h + 1..] == tail;
    assert Strs.Split(tail, ':') == [tail];
    assert Strs.Split(url, ':') == [url[..h]] + Strs.Split(tail, ':');
    assert "git@" <= url;
    NameFromPath(owner, repo);
  }

  lemma HttpsScheme(rest: string)
    ensures SplitScheme("https:" + rest) == ("https", rest)
  {
    var url := "https:" + rest;
    assert url[5] == ':' && ':' !in url[..5];
    Strs.IndexOfAt(url, ':', 5);
    assert url[..5] == "https";
    assert Strs.Lower("https") == "https";
  }

  /** The path of `https://<host>/<tail>` when the host is a plain network
      location and the tail holds no query, fragment or parameters. */
  lemma HttpsPath(url: string, host: string, tail: string)
    requires url == "https://" + host + "/" + tail
    requires forall k :: 0 <= k < |host| ==> !EndsNetloc(host[k])
    requires '?' !in tail && '#' !in tail && ';' !in tail
    ensures UrlPath(url) == "/" + tail
  {
    var path := "/" + tail;
    var rest := "//" + host + path;
    assert url == "https:" + rest;
    HttpsScheme(rest);
    NetlocSkip(host, path);
    assert '#' !in path && '?' !in path && ';' !in path;
    assert Cut(Cut(path, '#'), '?') == path;
  }

  /** The network location of `//<host><path>` ends where the path starts. */
  lemma NetlocSkip(host: string, path: string)
    requires forall k :: 0 <= k < |host| ==> !EndsNetloc(host[k])
    requires path != [] && path[0] == '/'
    ensures var rest := "//" + host + path;
      rest[..2] == "//" && rest[NetlocEnd(rest, 2)..] == path
  {
    var rest := "//" + host + path;
    var e := 2 + |host|;
    assert rest[e] == '/';
    forall k | 2 <= k < e ensures !EndsNetloc(rest[k]) { assert rest[k] == host[k - 2]; }
    assert NetlocEnd(rest, 2) == e;
    assert rest[e..] == path;
  }

  lemma StripSlashes(tail: string)
    requires |tail| >= 1 && tail[0] != '/' && tail[|tail| - 1] != '/'
    ensures Strs.StripChar("/" + tail, '/') == tail
  {
    var p := "/" + tail;
    assert p[1..] == tail;
    assert Strs.TrimLeftChar(p, '/') == Strs.TrimLeftChar(tail, '/') == tail;
  }

  /** The HTTPS form `https://<host>/owner/repo.git` names `owner_repo`. */
  lemma {:induction false} HttpsUrlName(host: string, owner: string, repo: string)
    requires forall k :: 0 <= k < |host| ==> !EndsNetloc(host[k])
    requires PlainSegment(owner) && PlainSegment(repo)
    ensures ExtractRepoName("https://" + host + "/" + owner + "/" + repo + ".git") == Some(owner + "_" + repo)
  {
    var url := "https://" + host + "/" + owner + "/" + repo + ".git";
    HttpsRepoPath(host, owner, repo);
    assert !("git@" <= url) by { assert url[0] == 'h'; }
    PathName(owner, repo);
  }

  lemma HttpsRepoPath(host: string, owner: string, repo: string)
    requires forall k :: 0 <= k < |host| ==> !EndsNetloc(host[k])
    requires PlainSegment(owner) && PlainSegment(repo)
    ensures UrlPath("https://" + host + "/" + owner + "/" + repo + ".git") == "/" + (owner + "/" + repo + ".git")
  {
    var tail := owner + "/" + repo + ".git";
    TailPlain(owner, repo);
    HttpsPath("https://" + host + "/" + owner + "/" + repo + ".git", host, tail);
  }

  lemma TailPlain(owner: string, repo: string)
    requires PlainSegment(owner) && PlainSegment(repo)
    ensures var tail := owner + "/" + repo + ".git"; '?' !in tail && '#' !in tail && ';' !in tail
  {
    var tail := owner + "/" + repo + ".git";
    forall i | 0 <= i < |tail| ensures tail[i] != '?' && tail[i] != '#' && tail[i] != ';' {
      SegmentChars(owner, repo, i);
    }
  }

  lemma PathName(owner: string, repo: string)
    requires PlainSegment(owner) && PlainSegment(repo)
    ensures NameOfPath("/" + (owner + "/" + repo + ".git")) == Some(owner + "_" + repo)
  {
    var tail := owner + "/" + repo + ".git";
    assert tail[0] == owner[0] && tail[|tail| - 1] == 't';
    StripSlashes(tail);
    NameFromPath(owner, repo);
  }

  // ---------------------------------------------------------------------
  // `_validate_local_repo`, `_clone_github_repo` and `fetch`

  /** `(success, repo_path, error_message)`. */
  datatype FetchResult = FetchResult(success: bool, repoPath: Option<string>, error: Option<string>)

  /** What the file system says about a path: its `resolve()`d absolute form,
      whether that exists and is a directory, and whether it holds `.git` or
      a `.py` file. */
  datatype DirFacts = DirFacts(resolved: string, present: bool, isDir: bool, hasGit: bool, hasPythonFiles: bool)

  /** What `_validate_local_repo` accepts. */
  predicate LooksLikeRepo(facts: DirFacts) {
    facts.present && facts.isDir && (facts.hasGit || facts.hasPythonFiles)
  }

  predicate EndsWith(s: string, suffix: string) {
    |suffix| <= |s| && s[|s| - |suffix|..] == suffix
  }

  /** `_validate_local_repo` of a path described by `facts`: success returns
      the resolved path, and every failure message ends with it. */
  function ValidateLocalRepo(facts: DirFacts): (r: FetchResult)
    ensures r.success <==> LooksLikeRepo(facts)
    ensures r.success ==> r.repoPath == Some(facts.resolved) && r.error.None?
    ensures !r.success ==> r.repoPath.None? && r.error.Some? && EndsWith(r.error.value, facts.resolved)
  {
    var path := facts.resolved;
    if !facts.present then FetchResult(false, None, Some("Path does not exist: " + path))
    else if !facts.isDir then FetchResult(false, None, Some("Path is not a directory: " + path))
    else if !facts.hasGit && !facts.hasPythonFiles then
      FetchResult(false, None, Some("Path does not appear to be a valid repository (no .git or .py files): " + path))
    else FetchResult(true, Some(path), None)
  }

  /** How a `git clone` ended. */
  datatype CloneOutcome = Cloned | CloneFailed(stderr: string) | CloneTimedOut | GitMissing | CloneError(message: string)

  /** `_clone_github_repo`: `cached` describes the cache entry `cacheDir/name`,
      `clone` how cloning ends when it is needed. */
  function CloneGithubRepo(cacheDir: string, url: string, cached: DirFacts, clone: CloneOutcome): FetchResult {
    var name := ExtractRepoName(url);
    if name.None? || name.value == "" then FetchResult(false, None, Some("Invalid GitHub URL: " + url))
    else
      var target := cacheDir + "/" + name.value;
      if cached.present && ValidateLocalRepo(cached).success then FetchResult(true, Some(cached.resolved), None)
      else match clone
        case Cloned => FetchResult(true, Some(target), None)
        case CloneFailed(stderr) => FetchResult(false, None, Some("Git clone failed: " + stderr))
        case CloneTimedOut => FetchResult(false, None, Some("Git clone timed out after 5 minutes"))
        case GitMissing => FetchResult(false, None, Some("Git is not installed or not in PATH"))
        case CloneError(m) => FetchResult(false, None, Some("Unexpected error during clone: " + m))
  }

  /** A URL without a name fails. Otherwise a cache entry that looks like a
      repository is reused, as its resolved path, without cloning; else the
      clone decides, and a fresh clone is `cacheDir/name` for a name without
      `/`. */
  lemma CloneLocation(cacheDir: string, url: string, cached: DirFacts, clone: CloneOutcome)
    ensures var r := CloneGithubRepo(cacheDir, url, cached, clone);
      && (r.success <==> r.error.None?)
      && (r.success <==> r.repoPath.Some?)
      && (ExtractRepoName(url).None? || ExtractRepoName(url) == Some("") ==> !r.success)
      && (ExtractRepoName(url).Some? && ExtractRepoName(url).value != "" ==>
            var name := ExtractRepoName(url).value;
            && '/' !in name
            && (LooksLikeRepo(cached) ==> r.repoPath == Some(cached.resolved))
            && (!LooksLikeRepo(cached) ==> (r.success <==> clone.Cloned?))
            && (!LooksLikeRepo(cached) && r.success ==> r.repoPath == Some(cacheDir + "/" + name)))
  {
    RepoNameFlat(url);
  }

  /** `fetch`: an existing path is validated in place; anything else is
      taken for a GitHub URL. */
  function Fetch(cacheDir: string, input: string, local: DirFacts, cached: DirFacts, clone: CloneOutcome): FetchResult {
    if local.present then ValidateLocalRepo(local) else CloneGithubRepo(cacheDir, input, cached, clone)
  }

  lemma FetchMeaning(cacheDir: string, input: string, local: DirFacts, cached: DirFacts, clone: CloneOutcome)
    ensures var r := Fetch(cacheDir, input, local, cached, clone);
      && (r.success <==> r.repoPath.Some?)
      && (r.success <==> r.error.None?)
      && (local.present ==> (r.success <==> LooksLikeRepo(local)))
      && (local.present && r.success ==> r.repoPath == Some(local.resolved))
  {
  }
}
