/**
 * The three multi-step operations of the edition engine
 * (backend/edition.ts): `updateGit`, `commitEdition` and `publishEdition`,
 * together with `getGitMainBranch` which the first and last of them call.
 * Each operation is a specification function on the world's oracle, giving
 * the commands issued and how the call completes, and a method that drives
 * a `World` step by step and is proved to do exactly that.
 */
module Edition {
  import opened Wrappers
  import opened Naming
  import opened GitSteps

  /** The author recorded on every commit of an edition. */
  const CommitAuthor := "Editor <task-editor@france-ioi.org>"

  /** The message of the exception the URL parser raises on a malformed URL. */
  const InvalidUrl := "Invalid URL"

  /** The parts of a parsed repository URL that the engine reads. */
  datatype UrlParts = UrlParts(hostname: string, pathname: string)

  /**
   * What the engine consults besides the world: the `git` configuration,
   * the MD5 digest, the URL parser (None for a URL it rejects) and the
   * GitLab token of the process environment.
   */
  datatype Services = Services(
    cfg: GitConfig,
    md5: string -> HexDigest,
    parseUrl: string -> Option<UrlParts>,
    gitlabToken: Option<string>)

  /** The JSON an operation returns. */
  datatype Response =
    | Failure(error: string)
    | Synced
    | Committed
    | PublishedToProduction
    | PublishBranch(branch: string)
    | RequestOpened

  /** An operation either returns a response or throws. */
  datatype Completion = Returned(response: Response) | Threw(message: string)

  /** The commands an operation issues and how it completes. */
  datatype Outcome = Outcome(issued: seq<Action>, completion: Completion)

  // -------------------------------------------------------------- trunk

  /** `getGitMainBranch` given the reply to the branch listing; a failed listing gives `editor`. */
  function TrunkOf(reply: Reply): (trunk: string)
    ensures trunk == "master" <==> reply.Done? && "master" in reply.output
    ensures trunk == "main" <==> reply.Done? && "master" !in reply.output && "main" in reply.output
    ensures trunk == "editor" <==> reply.Failed? || ("master" !in reply.output && "main" !in reply.output)
  {
    if reply.Failed? then "editor" else SelectTrunk(reply.output)
  }

  method MainBranch(world: World) returns (trunk: string)
    modifies world
    ensures world.trace == old(world.trace) + [ListBranches]
    ensures trunk == TrunkOf(world.respond(old(world.trace), ListBranches))
  {
    var reply := world.Perform(ListBranches);
    if reply.Failed? {
      return "editor";
    }
    trunk := SelectTrunk(reply.output);
  }

  // ---------------------------------------------------------- updateGit

  /** The steps of `updateGit` after the fetch and the branch listing. */
  function SyncSteps(trunk: string, branch: string): seq<Step> {
    [Do(Checkout(trunk), false), Do(Pull, false), Do(CreateBranch(branch), true),
     Do(Checkout(branch), false), Do(SetUpstream("origin/" + branch, branch), false), Do(Pull, false)]
  }

  /** `updateGit`: every failure but that of the branch creation is caught and returned. */
  function SyncSpec(respond: Responder, t: seq<Action>, md5: string -> HexDigest, repo: string, subdir: string): Outcome {
    var fetched := respond(t, Fetch);
    if fetched.Failed? then Outcome([Fetch], Returned(Failure(fetched.message)))
    else
      var trunk := TrunkOf(respond(t + [Fetch], ListBranches));
      var p := RunSteps(respond, t + [Fetch, ListBranches], SyncSteps(trunk, EditBranch(md5, repo, subdir)));
      Outcome([Fetch, ListBranches] + p.issued,
              if p.error.Some? then Returned(Failure(p.error.value)) else Returned(Synced))
  }

  method UpdateGit(world: World, md5: string -> HexDigest, repo: string, subdir: string) returns (c: Completion)
    modifies world
    ensures var o := SyncSpec(world.respond, old(world.trace), md5, repo, subdir);
      world.trace == old(world.trace) + o.issued && c == o.completion
  {
    var branch := EditBranch(md5, repo, subdir);
    var fetched := world.Perform(Fetch);
    if fetched.Failed? {
      return Returned(Failure(fetched.message));
    }
    var trunk := MainBranch(world);
    assert world.trace == old(world.trace) + [Fetch, ListBranches];
    var error := SyncBranches(world, trunk, branch);
    c := if error.Some? then Returned(Failure(error.value)) else Returned(Synced);
    ghost var p := RunSteps(world.respond, old(world.trace) + [Fetch, ListBranches], SyncSteps(trunk, branch));
    assert world.trace == old(world.trace) + ([Fetch, ListBranches] + p.issued);
  }

  /** The six steps of `updateGit` that follow the branch listing. */
  method SyncBranches(world: World, trunk: string, branch: string) returns (error: Option<string>)
    modifies world
    ensures var p := RunSteps(world.respond, old(world.trace), SyncSteps(trunk, branch));
      world.trace == old(world.trace) + p.issued && error == p.error
  {
    ghost var t0 := world.trace;
    ghost var steps := SyncSteps(trunk, branch);
    var upstream := "origin/" + branch;
    ghost var r5 := [Do(Pull, false)];
    ghost var r4 := [Do(SetUpstream(upstream, branch), false)] + r5;
    ghost var r3 := [Do(Checkout(branch), false)] + r4;
    ghost var r2 := [Do(CreateBranch(branch), true)] + r3;
    ghost var r1 := [Do(Pull, false)] + r2;
    assert steps == [Do(Checkout(trunk), false)] + r1;
    assert t0 + [] == t0;
    error := Attempt(world, t0, steps, [], Checkout(trunk), false, r1);
    if error.Some? { return; }
    ghost var done := [Checkout(trunk)];
    error := Attempt(world, t0, steps, done, Pull, false, r2);
    if error.Some? { return; }
    done := done + [Pull];
    error := Attempt(world, t0, steps, done, CreateBranch(branch), true, r3);
    done := done + [CreateBranch(branch)];
    error := Attempt(world, t0, steps, done, Checkout(branch), false, r4);
    if error.Some? { return; }
    done := done + [Checkout(branch)];
    error := Attempt(world, t0, steps, done, SetUpstream(upstream, branch), false, r5);
    if error.Some? { return; }
    done := done + [SetUpstream(upstream, branch)];
    error := Attempt(world, t0, steps, done, Pull, false, []);
  }

  // ------------------------------------------------------ commitEdition

  /** Setting up the authenticated remote parses the URL; then add, commit and push. */
  function CommitPushSteps(svc: Services, repo: string, message: string): seq<Step> {
    if svc.parseUrl(repo).None? then [Throw(InvalidUrl)]
    else [Do(AddAll, false), Do(Commit(message, CommitAuthor), false),
          Do(Push(SetGitBackendUser(svc.cfg, repo, None, None)), false)]
  }

  /**
   * The steps of `commitEdition` once its inputs are valid. The branch is
   * that of the normalised subdirectory; the copy of the session runs in
   * the background, so its failure is never seen.
   */
  function CommitSteps(svc: Services, repo: string, subdir: string, sessionId: string, message: string): seq<Step> {
    var sub := NormalizeSubdir(subdir);
    [Do(Checkout(EditBranch(svc.md5, repo, sub)), false), Do(RemoveSidecar(sessionId), false),
     Do(CopySession(sessionId, sub), true)] + CommitPushSteps(svc, repo, message)
  }

  /** `commitEdition`: validation first; failures after it propagate as exceptions. */
  function CommitSpec(respond: Responder, t: seq<Action>, svc: Services, repo: string, subdir: string,
                      sessionId: string, message: string): Outcome {
    if !RepositoryAllowed(svc.cfg.allowedRepositories, repo) then Outcome([], Returned(Failure("Repository not allowed")))
    else if sessionId == "" then Outcome([], Returned(Failure("No session ID provided")))
    else
      var p := RunSteps(respond, t, CommitSteps(svc, repo, subdir, sessionId, message));
      Outcome(p.issued, if p.error.Some? then Threw(p.error.value) else Returned(Committed))
  }

  method CommitEdition(world: World, svc: Services, repo: string, subdir: string, sessionId: string, message: string)
    returns (c: Completion)
    modifies world
    ensures var o := CommitSpec(world.respond, old(world.trace), svc, repo, subdir, sessionId, message);
      world.trace == old(world.trace) + o.issued && c == o.completion
  {
    if !RepositoryAllowed(svc.cfg.allowedRepositories, repo) {
      return Returned(Failure("Repository not allowed"));
    }
    if sessionId == "" {
      return Returned(Failure("No session ID provided"));
    }
    var error := CommitSession(world, svc, repo, subdir, sessionId, message);
    c := if error.Some? then Threw(error.value) else Returned(Committed);
  }

  /** Checks out the edit branch and brings the session's files into the working copy. */
  method CommitSession(world: World, svc: Services, repo: string, subdir: string, sessionId: string, message: string)
    returns (error: Option<string>)
    modifies world
    ensures var p := RunSteps(world.respond, old(world.trace), CommitSteps(svc, repo, subdir, sessionId, message));
      world.trace == old(world.trace) + p.issued && error == p.error
  {
    var sub := NormalizeSubdir(subdir);
    var branch := EditBranch(svc.md5, repo, sub);
    ghost var t0 := world.trace;
    ghost var steps := CommitSteps(svc, repo, subdir, sessionId, message);
    ghost var tail := CommitPushSteps(svc, repo, message);
    ghost var r2 := [Do(CopySession(sessionId, sub), true)] + tail;
    ghost var r1 := [Do(RemoveSidecar(sessionId), false)] + r2;
    assert steps == [Do(Checkout(branch), false)] + r1;
    assert t0 + [] == t0;
    error := Attempt(world, t0, steps, [], Checkout(branch), false, r1);
    if error.Some? { return; }
    ghost var done := [Checkout(branch)];
    error := Attempt(world, t0, steps, done, RemoveSidecar(sessionId), false, r2);
    if error.Some? { return; }
    done := done + [RemoveSidecar(sessionId)];
    error := Attempt(world, t0, steps, done, CopySession(sessionId, sub), true, tail);
    done := done + [CopySession(sessionId, sub)];
    error := CommitAndPush(world, t0, steps, done, svc, repo, message);
  }

  /** Sets up the authenticated remote, then adds, commits and pushes. */
  method CommitAndPush(world: World, ghost t0: seq<Action>, ghost steps: seq<Step>, ghost done: seq<Action>,
                       svc: Services, repo: string, message: string) returns (error: Option<string>)
    requires world.trace == t0 + done
    requires RunSteps(world.respond, t0, steps) ==
      After(done, RunSteps(world.respond, t0 + done, CommitPushSteps(svc, repo, message)))
    modifies world
    ensures var p := RunSteps(world.respond, t0, steps);
      world.trace == t0 + p.issued && error == p.error
  {
    if svc.parseUrl(repo).None? {
      return Some(InvalidUrl);
    }
    var remote := SetGitBackendUser(svc.cfg, repo, None, None);
    ghost var q2 := [Do(Push(remote), false)];
    ghost var q1 := [Do(Commit(message, CommitAuthor), false)] + q2;
    assert CommitPushSteps(svc, repo, message) == [Do(AddAll, false)] + q1;
    error := Attempt(world, t0, steps, done, AddAll, false, q1);
    if error.Some? { return; }
    ghost var d := done + [AddAll];
    error := Attempt(world, t0, steps, d, Commit(message, CommitAuthor), false, q2);
    if error.Some? { return; }
    d := d + [Commit(message, CommitAuthor)];
    error := Attempt(world, t0, steps, d, Push(remote), false, []);
  }

  // ----------------------------------------------------- publishEdition

  /** The arguments of `publishEdition`. */
  datatype PublishArgs = PublishArgs(
    repo: string, subdir: string, kind: string, username: string, password: string, title: string, body: string)

  /** The publish branch: `publish-` and the first 8 digits of a digest of a random number. */
  function PublishBranchName(digest: HexDigest): (name: string)
    ensures |name| == 16 && name[..8] == "publish-"
    ensures forall i :: 8 <= i < 16 ==> IsHexDigit(name[i])
  {
    "publish-" + digest[..8]
  }

  /** JavaScript `a || b` for an optional string `a`. */
  function OrElse(a: Option<string>, b: string): string {
    if Truthy(a) then a.value else b
  }

  /**
   * The provider request: a GitLab merge request when the URL's host is
   * `gitlab.com`, a GitHub pull request otherwise.
   */
  function ProviderRequest(svc: Services, args: PublishArgs, url: UrlParts, branch: string, trunk: string): Action {
    if url.hostname == "gitlab.com" then
      OpenMergeRequest(GitlabProjectId(url.pathname), OrElse(svc.gitlabToken, args.password),
                       MergeRequest(args.title, args.body, branch, trunk))
    else
      OpenPullRequest(url.pathname, OrElse(svc.cfg.githubPassword, args.password),
                      PullRequest(args.title, args.body, branch, trunk))
  }

  /** The steps after the publish branch is checked out, by publication kind. */
  function RouteSteps(svc: Services, args: PublishArgs, trunk: string, branch: string): seq<Step> {
    var url := svc.parseUrl(args.repo);
    if args.kind == "prod" then
      [Do(Merge(trunk), false), Do(Checkout(trunk), false), Do(Merge(branch), false)] +
      (if url.None? then [Throw(InvalidUrl)]
       else [Do(Push(SetGitUser(args.repo, Some(args.username), Some(args.password))), false)])
    else if url.None? then [Throw(InvalidUrl)]
    else
      [Do(Push(SetGitBackendUser(svc.cfg, args.repo, Some(args.username), Some(args.password))), false)] +
      (if args.kind == "mpr" then [] else [Do(ProviderRequest(svc, args, url.value, branch, trunk), false)])
  }

  /** The steps of `publishEdition` after the branch listing. */
  function PublishSteps(svc: Services, args: PublishArgs, trunk: string, branch: string): seq<Step> {
    [Do(Checkout(trunk), false), Do(Pull, false), Do(Checkout(EditBranch(svc.md5, args.repo, args.subdir)), false),
     Do(CreateBranch(branch), false), Do(Checkout(branch), false)] + RouteSteps(svc, args, trunk, branch)
  }

  /** The response of a publication that ran to the end. */
  function Published(kind: string, branch: string): Response {
    if kind == "prod" then PublishedToProduction
    else if kind == "mpr" then PublishBranch(branch)
    else RequestOpened
  }

  /** `publishEdition`: nothing is caught, so every failure propagates as an exception. */
  function PublishSpec(respond: Responder, t: seq<Action>, svc: Services, args: PublishArgs, digest: HexDigest): Outcome {
    var trunk := TrunkOf(respond(t, ListBranches));
    var branch := PublishBranchName(digest);
    var p := RunSteps(respond, t + [ListBranches], PublishSteps(svc, args, trunk, branch));
    Outcome([ListBranches] + p.issued, if p.error.Some? then Threw(p.error.value) else Returned(Published(args.kind, branch)))
  }

  method PublishEdition(world: World, svc: Services, args: PublishArgs, digest: HexDigest) returns (c: Completion)
    modifies world
    ensures var o := PublishSpec(world.respond, old(world.trace), svc, args, digest);
      world.trace == old(world.trace) + o.issued && c == o.completion
  {
    var trunk := MainBranch(world);
    var branch := PublishBranchName(digest);
    var error := PublishBranches(world, svc, args, trunk, branch);
    c := if error.Some? then Threw(error.value) else Returned(Published(args.kind, branch));
    ghost var p := RunSteps(world.respond, old(world.trace) + [ListBranches], PublishSteps(svc, args, trunk, branch));
    assert world.trace == old(world.trace) + ([ListBranches] + p.issued);
  }

  /** Checks out the trunk and the edit branch, creates the publish branch, then routes. */
  method PublishBranches(world: World, svc: Services, args: PublishArgs, trunk: string, branch: string)
    returns (error: Option<string>)
    modifies world
    ensures var p := RunSteps(world.respond, old(world.trace), PublishSteps(svc, args, trunk, branch));
      world.trace == old(world.trace) + p.issued && error == p.error
  {
    var editBranch := EditBranch(svc.md5, args.repo, args.subdir);
    ghost var t0 := world.trace;
    ghost var steps := PublishSteps(svc, args, trunk, branch);
    ghost var r4 := [Do(Checkout(branch), false)] + RouteSteps(svc, args, trunk, branch);
    ghost var r3 := [Do(CreateBranch(branch), false)] + r4;
    ghost var r2 := [Do(Checkout(editBranch), false)] + r3;
    ghost var r1 := [Do(Pull, false)] + r2;
    assert steps == [Do(Checkout(trunk), false)] + r1;
    assert t0 + [] == t0;
    error := Attempt(world, t0, steps, [], Checkout(trunk), false, r1);
    if error.Some? { return; }
    ghost var done := [Checkout(trunk)];
    error := Attempt(world, t0, steps, done, Pull, false, r2);
    if error.Some? { return; }
    done := done + [Pull];
    error := Attempt(world, t0, steps, done, Checkout(editBranch), false, r3);
    if error.Some? { return; }
    done := done + [Checkout(editBranch)];
    error := Attempt(world, t0, steps, done, CreateBranch(branch), false, r4);
    if error.Some? { return; }
    done := done + [CreateBranch(branch)];
    error := Attempt(world, t0, steps, done, Checkout(branch), false, RouteSteps(svc, args, trunk, branch));
    if error.Some? { return; }
    done := done + [Checkout(branch)];
    error := Route(world, t0, steps, done, svc, args, trunk, branch);
  }

  /** The kind-dependent tail of `publishEdition`. */
  method Route(world: World, ghost t0: seq<Action>, ghost steps: seq<Step>, ghost done: seq<Action>,
               svc: Services, args: PublishArgs, trunk: string, branch: string) returns (error: Option<string>)
    requires world.trace == t0 + done
    requires RunSteps(world.respond, t0, steps) ==
      After(done, RunSteps(world.respond, t0 + done, RouteSteps(svc, args, trunk, branch)))
    modifies world
    ensures var p := RunSteps(world.respond, t0, steps);
      world.trace == t0 + p.issued && error == p.error
  {
    var url := svc.parseUrl(args.repo);
    if args.kind == "prod" {
      ghost var tail := if url.None? then [Throw(InvalidUrl)]
        else [Do(Push(SetGitUser(args.repo, Some(args.username), Some(args.password))), false)];
      ghost var r2 := [Do(Merge(branch), false)] + tail;
      ghost var r1 := [Do(Checkout(trunk), false)] + r2;
      assert RouteSteps(svc, args, trunk, branch) == [Do(Merge(trunk), false)] + r1;
      error := Attempt(world, t0, steps, done, Merge(trunk), false, r1);
      if error.Some? { return; }
      ghost var d := done + [Merge(trunk)];
      error := Attempt(world, t0, steps, d, Checkout(trunk), false, r2);
      if error.Some? { return; }
      d := d + [Checkout(trunk)];
      error := Attempt(world, t0, steps, d, Merge(branch), false, tail);
      if error.Some? { return; }
      d := d + [Merge(branch)];
      if url.None? {
        return Some(InvalidUrl);
      }
      var remote := SetGitUser(args.repo, Some(args.username), Some(args.password));
      error := Attempt(world, t0, steps, d, Push(remote), false, []);
    } else {
      if url.None? {
        return Some(InvalidUrl);
      }
      var remote := SetGitBackendUser(svc.cfg, args.repo, Some(args.username), Some(args.password));
      ghost var tail := if args.kind == "mpr" then [] else [Do(ProviderRequest(svc, args, url.value, branch, trunk), false)];
      error := Attempt(world, t0, steps, done, Push(remote), false, tail);
      if error.Some? || args.kind == "mpr" {
        return;
      }
      error := Attempt(world, t0, steps, done + [Push(remote)], ProviderRequest(svc, args, url.value, branch, trunk), false, []);
    }
  }
}
