/**
 * The deterministic naming and selection rules of the edition engine
 * (backend/edition.ts): the working-copy key of a repository URL, the edit
 * branch of a subdirectory, the allow-list, trunk selection, subdirectory
 * normalisation, the choice of credentials, the diff target and the GitLab
 * project id.
 */
module Naming {
  import opened Wrappers
  import opened JsText

  // ------------------------------------------------------ working-copy key

  predicate IsAlphaNum(c: char) {
    ('A' <= c <= 'Z') || ('a' <= c <= 'z') || ('0' <= c <= '9')
  }

  /** `.replace(/\.git$/, '')`: one trailing `.git` is removed. */
  function StripGitSuffix(s: string): string {
    if |s| >= 4 && s[|s| - 4..] == ".git" then s[..|s| - 4] else s
  }

  /** A character above U+FFFF: two UTF-16 code units in JavaScript. */
  predicate IsAstral(c: char) {
    c as int > 0xFFFF
  }

  /**
   * The UTF-16 code units of `s`, as a regular expression without the `u`
   * flag sees them. A character above U+FFFF stands for each of its two
   * surrogates; neither is an ASCII letter or digit, and that is all the
   * key depends on.
   */
  function CodeUnits(s: string): string
    decreases |s|
  {
    if s == [] then []
    else UnitsOf(s[0]) + CodeUnits(s[1..])
  }

  function UnitsOf(c: char): string {
    if IsAstral(c) then [c, c] else [c]
  }

  /** Below U+FFFF, code units and characters coincide. */
  lemma {:induction false} CodeUnitsOfBasicPlane(s: string)
    requires forall i :: 0 <= i < |s| ==> !IsAstral(s[i])
    ensures CodeUnits(s) == s
    decreases |s|
  {
    if s != [] {
      CodeUnitsOfBasicPlane(s[1..]);
      assert s == [s[0]] + s[1..];
    }
  }

  /** JavaScript's `length`: the number of UTF-16 code units. */
  function Utf16Length(s: string): nat
    decreases |s|
  {
    if s == [] then 0 else (if IsAstral(s[0]) then 2 else 1) + Utf16Length(s[1..])
  }

  lemma {:induction false} CodeUnitsLength(s: string)
    ensures |CodeUnits(s)| == Utf16Length(s)
    decreases |s|
  {
    if s != [] {
      CodeUnitsLength(s[1..]);
    }
  }

  /** `.replace(/[^A-Za-z0-9]/g, '_')` on code units. */
  function Sanitize(s: string): (r: string)
    ensures |r| == |s|
    ensures forall i :: 0 <= i < |s| ==> r[i] == (if IsAlphaNum(s[i]) then s[i] else '_')
  {
    if s == [] then [] else [if IsAlphaNum(s[0]) then s[0] else '_'] + Sanitize(s[1..])
  }

  predicate IsKeyChar(c: char) {
    IsAlphaNum(c) || c == '_'
  }

  /**
   * The directory name of a repository's working copy: the trimmed URL
   * without one trailing `.git`, every UTF-16 code unit outside [A-Za-z0-9]
   * replaced by `_`. Trimming and the suffix act alike on characters and on
   * code units, since white space and `.git` lie below U+FFFF.
   */
  function RepositoryKey(repo: string): (key: string)
    ensures var u := CodeUnits(StripGitSuffix(Trim(repo)));
      && |key| == |u|
      && (forall i :: 0 <= i < |u| ==> key[i] == (if IsAlphaNum(u[i]) then u[i] else '_'))
    ensures forall i :: 0 <= i < |key| ==> IsKeyChar(key[i])
  {
    Sanitize(CodeUnits(StripGitSuffix(Trim(repo))))
  }

  /** The key is as long as the trimmed, de-`.git`'d URL is in JavaScript. */
  lemma RepositoryKeyLength(repo: string)
    ensures |RepositoryKey(repo)| == Utf16Length(StripGitSuffix(Trim(repo)))
  {
    CodeUnitsLength(StripGitSuffix(Trim(repo)));
  }

  /** A character above U+FFFF becomes two underscores. */
  lemma AstralCharacterIsTwoUnderscores()
    ensures RepositoryKey("a\U{1F600}") == "a__"
  {
    var s := "a\U{1F600}";
    RepositoryKeyOfBareUrl(s);
    AstralUnits();
    assert Sanitize(['a', '\U{1F600}', '\U{1F600}']) == "a__";
  }

  lemma AstralUnits()
    ensures CodeUnits("a\U{1F600}") == ['a', '\U{1F600}', '\U{1F600}']
  {
    var s := "a\U{1F600}";
    var e: string := [];
    assert s[1..] == ['\U{1F600}'] && ['\U{1F600}'][1..] == e;
    assert CodeUnits(['\U{1F600}']) == ['\U{1F600}', '\U{1F600}'] + CodeUnits(e);
  }

  /** A URL without surrounding blanks and without `.git` at its end is keyed as it stands. */
  lemma RepositoryKeyOfBareUrl(s: string)
    requires s == [] || (!IsJsSpace(s[0]) && !IsJsSpace(s[|s| - 1]))
    requires StripGitSuffix(s) == s
    ensures RepositoryKey(s) == Sanitize(CodeUnits(s))
  {
    TrimKeepsTrimmed(s);
  }

  lemma KeyCharIsNotSpace(c: char)
    requires IsKeyChar(c)
    ensures !IsJsSpace(c)
  {
  }

  /** A key names its own working copy: keying a key changes nothing. */
  lemma RepositoryKeyIsFixedPoint(repo: string)
    ensures RepositoryKey(RepositoryKey(repo)) == RepositoryKey(repo)
  {
    var key := RepositoryKey(repo);
    if key != [] {
      KeyCharIsNotSpace(key[0]);
      KeyCharIsNotSpace(key[|key| - 1]);
    }
    TrimKeepsTrimmed(key);
    if |key| >= 4 {
      assert key[|key| - 4..][0] == key[|key| - 4] != '.';
    }
    assert StripGitSuffix(key) == key;
    CodeUnitsOfBasicPlane(key);
    assert Sanitize(key) == key;
  }

  lemma SanitizeAppend(x: string, y: string)
    ensures Sanitize(x + y) == Sanitize(x) + Sanitize(y)
  {
    var a, b := Sanitize(x + y), Sanitize(x) + Sanitize(y);
    assert |a| == |b|;
    forall i | 0 <= i < |a|
      ensures a[i] == b[i]
    {
      if i < |x| {
        assert (x + y)[i] == x[i];
      } else {
        assert (x + y)[i] == y[i - |x|];
      }
    }
  }

  /** Keying distributes over concatenation at the level of code units. */
  lemma SanitizeUnitsAppend(c: char, s: string)
    ensures Sanitize(CodeUnits([c] + s)) == Sanitize(UnitsOf(c)) + Sanitize(CodeUnits(s))
  {
    var t := [c] + s;
    assert t[1..] == s;
    assert CodeUnits(t) == UnitsOf(c) + CodeUnits(s);
    SanitizeAppend(UnitsOf(c), CodeUnits(s));
  }

  /**
   * Two strings whose characters agree wherever one is alphanumeric, and
   * otherwise are both non-alphanumeric of the same JavaScript length,
   * sanitise alike.
   */
  lemma {:induction false} SanitizeConflates(a: string, b: string)
    requires |a| == |b|
    requires forall i :: 0 <= i < |a| ==>
      a[i] == b[i] || (!IsAlphaNum(a[i]) && !IsAlphaNum(b[i]) && IsAstral(a[i]) == IsAstral(b[i]))
    ensures Sanitize(CodeUnits(a)) == Sanitize(CodeUnits(b))
    decreases |a|
  {
    if a != [] {
      assert a == [a[0]] + a[1..] && b == [b[0]] + b[1..];
      SanitizeUnitsAppend(a[0], a[1..]);
      SanitizeUnitsAppend(b[0], b[1..]);
      SanitizeConflates(a[1..], b[1..]);
      if a[0] != b[0] {
        assert Sanitize(UnitsOf(a[0])) == Sanitize(UnitsOf(b[0]));
      }
    }
  }

  /** Two URLs get the same key when they differ only in which non-alphanumeric characters they use. */
  lemma RepositoryKeyConflatesSeparators(a: string, b: string)
    requires |a| == |b|
    requires forall i :: 0 <= i < |a| ==>
      a[i] == b[i] || (!IsAlphaNum(a[i]) && !IsAlphaNum(b[i]) && IsAstral(a[i]) == IsAstral(b[i]))
    requires a == [] || (!IsJsSpace(a[0]) && !IsJsSpace(a[|a| - 1]) && !IsJsSpace(b[0]) && !IsJsSpace(b[|b| - 1]))
    requires StripGitSuffix(a) == a && StripGitSuffix(b) == b
    ensures RepositoryKey(a) == RepositoryKey(b)
  {
    TrimKeepsTrimmed(a);
    TrimKeepsTrimmed(b);
    SanitizeConflates(a, b);
  }

  // ------------------------------------------------------------ edit branch

  predicate IsHexDigit(c: char) {
    ('0' <= c <= '9') || ('a' <= c <= 'f')
  }

  /** What `md5` returns: 32 lower-case hexadecimal digits. */
  type HexDigest = s: string | |s| == 32 && forall i :: 0 <= i < |s| ==> IsHexDigit(s[i])
    witness "00000000000000000000000000000000"

  /**
   * The edit branch: `editor-` and the first 8 hex digits of the md5 of the
   * subdirectory argument. The repository argument takes no part.
   */
  function EditBranch(md5: string -> HexDigest, repo: string, subdir: string): (branch: string)
    ensures |branch| == 15 && branch[..7] == "editor-"
    ensures forall i :: 7 <= i < 15 ==> IsHexDigit(branch[i])
  {
    "editor-" + md5(subdir)[..8]
  }

  /** Equal subdirectories give equal edit branches, whatever the repositories. */
  lemma EditBranchIgnoresRepository(md5: string -> HexDigest, repo1: string, repo2: string, subdir: string)
    ensures EditBranch(md5, repo1, subdir) == EditBranch(md5, repo2, subdir)
  {
  }

  // ------------------------------------------------------------- allow-list

  /** No list configured allows every repository; a configured list, even an empty one, allows only its members. */
  predicate RepositoryAllowed(allowed: Option<seq<string>>, repo: string) {
    allowed.None? || repo in allowed.value
  }

  /** Without a list every repository passes; a configured empty list refuses every one. */
  lemma AllowListExtremes(repo: string, other: string, list: seq<string>)
    ensures RepositoryAllowed(None, repo)
    ensures !RepositoryAllowed(Some([]), repo)
    ensures RepositoryAllowed(Some([repo] + list), repo)
    ensures other != repo && other !in list ==> !RepositoryAllowed(Some([repo] + list), other)
  {
  }

  // ------------------------------------------------------------------ trunk

  /** Trunk selection from a branch list: `master`, else `main`, else `editor`. */
  function SelectTrunk(branches: seq<string>): (trunk: string)
    ensures trunk == "master" <==> "master" in branches
    ensures trunk == "main" <==> "master" !in branches && "main" in branches
    ensures trunk == "editor" <==> "master" !in branches && "main" !in branches
  {
    if "master" in branches then "master"
    else if "main" in branches then "main"
    else "editor"
  }

  // ---------------------------------------------------- subdirectory paths

  /** `.replace(/^\//, '')`. */
  function StripLeadingSlash(s: string): string {
    if s != [] && s[0] == '/' then s[1..] else s
  }

  /** `.replace(/\/$/, '')`. */
  function StripTrailingSlash(s: string): string {
    if s != [] && s[|s| - 1] == '/' then s[..|s| - 1] else s
  }

  /** `subdir.trim().replace(/^\//, '').replace(/\/$/, '')`. */
  function NormalizeSubdir(subdir: string): string {
    StripTrailingSlash(StripLeadingSlash(Trim(subdir)))
  }

  lemma TrimKeepsSlashed(q: string)
    ensures Trim("/" + q + "/") == "/" + q + "/"
  {
    var s := "/" + q + "/";
    assert s[0] == '/' && s[|s| - 1] == '/';
    TrimKeepsTrimmed(s);
  }

  lemma StripLeadingSlashOfSlashed(q: string)
    ensures StripLeadingSlash("/" + q + "/") == q + "/"
  {
    assert ("/" + q + "/")[1..] == q + "/";
  }

  lemma StripTrailingSlashOfSlashed(q: string)
    ensures StripTrailingSlash(q + "/") == q
  {
    assert (q + "/")[..|q|] == q;
  }

  /** Exactly one slash is removed at each end, however many there are. */
  lemma NormalizeSubdirStripsOneSlashEachSide(q: string)
    ensures NormalizeSubdir("/" + q + "/") == q
  {
    TrimKeepsSlashed(q);
    StripLeadingSlashOfSlashed(q);
    StripTrailingSlashOfSlashed(q);
  }

  /** A path already free of surrounding white space and slashes is left alone. */
  lemma NormalizeSubdirKeepsNormalized(q: string)
    requires q == [] || (!IsJsSpace(q[0]) && !IsJsSpace(q[|q| - 1]) && q[0] != '/' && q[|q| - 1] != '/')
    ensures NormalizeSubdir(q) == q
  {
    TrimKeepsTrimmed(q);
  }

  // ------------------------------------------------------------ credentials

  /** The `git` section of the configuration; an absent field is None. */
  datatype GitConfig = GitConfig(
    allowedRepositories: Option<seq<string>>,
    gitlabUser: Option<string>,
    gitlabPassword: Option<string>,
    githubUser: Option<string>,
    githubPassword: Option<string>)

  /** A remote URL together with the user information embedded in it, if any. */
  datatype Remote = Remote(repo: string, userinfo: Option<(string, string)>)

  /** JavaScript truthiness of an optional string. */
  predicate Truthy(v: Option<string>) {
    v.Some? && v.value != ""
  }

  /** `a ?? b`. */
  function Coalesce(a: Option<string>, b: Option<string>): Option<string> {
    if a.Some? then a else b
  }

  /** `setGitUser`: the user information is set only when both parts are non-empty. */
  function SetGitUser(repo: string, username: Option<string>, password: Option<string>): (r: Remote)
    ensures r.repo == repo
    ensures r.userinfo.Some? <==> Truthy(username) && Truthy(password)
    ensures r.userinfo.Some? ==> r.userinfo.value == (username.value, password.value)
  {
    if Truthy(username) && Truthy(password) then Remote(repo, Some((username.value, password.value)))
    else Remote(repo, None)
  }

  /** `isGitlab`: a substring test on the URL, not a host comparison. */
  predicate IsGitlab(repo: string) {
    Includes(repo, "//gitlab.com")
  }

  /** `setGitBackendUser`: the configured credentials of the matching provider take precedence over the caller's. */
  function SetGitBackendUser(cfg: GitConfig, repo: string, username: Option<string>, password: Option<string>): (r: Remote)
    ensures r.repo == repo
  {
    if IsGitlab(repo) then SetGitUser(repo, Coalesce(cfg.gitlabUser, username), Coalesce(cfg.gitlabPassword, password))
    else SetGitUser(repo, Coalesce(cfg.githubUser, username), Coalesce(cfg.githubPassword, password))
  }

  /** With both fields configured for the provider, the caller's credentials are never used. */
  lemma ConfiguredCredentialsWin(cfg: GitConfig, repo: string, username: Option<string>, password: Option<string>)
    ensures IsGitlab(repo) && Truthy(cfg.gitlabUser) && Truthy(cfg.gitlabPassword) ==>
      SetGitBackendUser(cfg, repo, username, password).userinfo == Some((cfg.gitlabUser.value, cfg.gitlabPassword.value))
    ensures !IsGitlab(repo) && Truthy(cfg.githubUser) && Truthy(cfg.githubPassword) ==>
      SetGitBackendUser(cfg, repo, username, password).userinfo == Some((cfg.githubUser.value, cfg.githubPassword.value))
  {
  }

  /** The other provider's configuration is never consulted. */
  lemma OtherProviderIgnored(cfg: GitConfig, repo: string, username: Option<string>, password: Option<string>, u: Option<string>, p: Option<string>)
    ensures IsGitlab(repo) ==>
      SetGitBackendUser(cfg.(githubUser := u, githubPassword := p), repo, username, password) == SetGitBackendUser(cfg, repo, username, password)
    ensures !IsGitlab(repo) ==>
      SetGitBackendUser(cfg.(gitlabUser := u, gitlabPassword := p), repo, username, password) == SetGitBackendUser(cfg, repo, username, password)
  {
  }

  /** The configured fields of the provider `isGitlab` picks for `repo`. */
  function ProviderFields(cfg: GitConfig, repo: string): (Option<string>, Option<string>) {
    if IsGitlab(repo) then (cfg.gitlabUser, cfg.gitlabPassword) else (cfg.githubUser, cfg.githubPassword)
  }

  /** With neither field configured, the caller's credentials are embedded when both are non-empty. */
  lemma CallerCredentialsWhenNoneConfigured(cfg: GitConfig, repo: string, username: Option<string>, password: Option<string>)
    requires ProviderFields(cfg, repo) == (None, None)
    ensures SetGitBackendUser(cfg, repo, username, password).userinfo ==
      if Truthy(username) && Truthy(password) then Some((username.value, password.value)) else None
  {
  }

  /** Each field falls back to the caller's value on its own. */
  lemma EachFieldFallsBackAlone(cfg: GitConfig, repo: string, username: Option<string>, password: Option<string>)
    ensures var (u, p) := ProviderFields(cfg, repo);
      Truthy(u) && p.None? && Truthy(password) ==>
        SetGitBackendUser(cfg, repo, username, password).userinfo == Some((u.value, password.value))
    ensures var (u, p) := ProviderFields(cfg, repo);
      u.None? && Truthy(p) && Truthy(username) ==>
        SetGitBackendUser(cfg, repo, username, password).userinfo == Some((username.value, p.value))
  {
  }

  /** A field configured as the empty string is used as such: no user information is embedded. */
  lemma ConfiguredEmptySuppressesUserinfo(cfg: GitConfig, repo: string, username: Option<string>, password: Option<string>)
    requires ProviderFields(cfg, repo).0 == Some("") || ProviderFields(cfg, repo).1 == Some("")
    ensures SetGitBackendUser(cfg, repo, username, password).userinfo == None
  {
  }

  /** A URL whose authority starts with gitlab.com is a GitLab URL. */
  lemma IsGitlabWhenHostFirst(scheme: string, rest: string)
    ensures IsGitlab(scheme + "//gitlab.com" + rest)
  {
    var url := scheme + "//gitlab.com" + rest;
    IncludesIff(url, "//gitlab.com");
    assert url[|scheme|..|scheme| + 12] == "//gitlab.com";
    assert OccursAt(url, "//gitlab.com", |scheme|);
  }

  /** The substring test also takes a host that merely begins with `gitlab.com` for GitLab. */
  lemma IsGitlabForOtherHost()
    ensures IsGitlab("https://gitlab.company.org/team/task")
  {
    IsGitlabWhenHostFirst("https:", "pany.org/team/task");
    assert "https:" + "//gitlab.com" + "pany.org/team/task" == "https://gitlab.company.org/team/task";
  }

  // ------------------------------------------------------------ diff target

  /** `diffEdition`'s target: `master` names the trunk, `editor` the edit branch, anything else itself. */
  function DiffTarget(target: string, trunk: string, editBranch: string): (r: string)
    ensures target == "master" ==> r == trunk
    ensures target == "editor" ==> r == editBranch
    ensures target != "master" && target != "editor" ==> r == target
  {
    if target == "master" then trunk
    else if target == "editor" then editBranch
    else target
  }

  // ----------------------------------------------------- GitLab project id

  /** `pathname.slice(1).replace('/', '%2F')`. */
  function GitlabProjectId(pathname: string): string {
    ReplaceFirst(if pathname == [] then [] else pathname[1..], '/', "%2F")
  }

  /** Only the first slash after the owner is encoded; later slashes stay as they are. */
  lemma GitlabProjectIdEncodesFirstSlash(owner: string, rest: string)
    requires '/' !in owner
    ensures GitlabProjectId("/" + owner + "/" + rest) == owner + "%2F" + rest
  {
    assert ("/" + owner + "/" + rest)[1..] == owner + ['/'] + rest;
    ReplaceFirstAt(owner, '/', "%2F", rest);
  }
}
