/**
 * What the command traces of `updateGit`, `commitEdition` and
 * `publishEdition` (backend/edition.ts) promise: the order of the
 * commands, which failures are tolerated, where a run stops, that
 * validation precedes every command, and how a publication is routed.
 */
module EditionProperties {
  import opened Wrappers
  import opened Naming
  import opened GitSteps
  import opened Edition

  // ---------------------------------------------------------- updateGit

  /**
   * When no command but the branch creation fails, `updateGit` issues
   * fetch, branch listing, checkout of the trunk, pull, branch creation,
   * checkout of the edit branch, upstream setting and pull, in this order,
   * and reports success.
   */
  lemma SyncIssuesStepsInOrder(respond: Responder, t: seq<Action>, md5: string -> HexDigest, repo: string, subdir: string)
    requires forall u: seq<Action>, a: Action :: !a.CreateBranch? ==> respond(u, a).Done?
    ensures var trunk := SelectTrunk(respond(t + [Fetch], ListBranches).output);
      var b := EditBranch(md5, repo, subdir);
      SyncSpec(respond, t, md5, repo, subdir) ==
        Outcome([Fetch, ListBranches, Checkout(trunk), Pull, CreateBranch(b), Checkout(b),
                 SetUpstream("origin/" + b, b), Pull], Returned(Synced))
  {
    var trunk := TrunkOf(respond(t + [Fetch], ListBranches));
    var b := EditBranch(md5, repo, subdir);
    var steps := SyncSteps(trunk, b);
    RunStepsWithoutFailures(respond, t + [Fetch, ListBranches], steps);
    ActionsOfCommands(steps);
    assert Actions(steps) == [Checkout(trunk), Pull, CreateBranch(b), Checkout(b), SetUpstream("origin/" + b, b), Pull];
  }

  /** The six steps after the listing stop at a fatal failure of a checkout, pull or upstream setting. */
  lemma SyncStepsStopAtFatalFailure(respond: Responder, t: seq<Action>, trunk: string, b: string)
    ensures var p := RunSteps(respond, t, SyncSteps(trunk, b));
      var n := |p.issued|;
      (p.error.Some? ==>
        0 < n && !p.issued[n - 1].CreateBranch? && !p.issued[n - 1].ListBranches? &&
        respond(t + p.issued[..n - 1], p.issued[n - 1]) == Failed(p.error.value)) &&
      (p.error.None? ==> n == 6)
  {
    var steps := SyncSteps(trunk, b);
    var p := RunSteps(respond, t, steps);
    RunStepsFollowsPlan(respond, t, steps);
    ActionsOfCommands(steps);
    if p.error.Some? {
      RunStepsErrorSource(respond, t, steps);
      var n := |p.issued|;
      assert steps[n - 1] == Do(p.issued[n - 1], false);
    }
  }

  /**
   * `updateGit` never throws. It fails exactly when a command other than
   * the branch listing and the branch creation fails; it then reports that
   * command's message and issues nothing after it. Otherwise all eight
   * commands are issued.
   */
  lemma SyncStopsAtFirstFatalFailure(respond: Responder, t: seq<Action>, md5: string -> HexDigest, repo: string, subdir: string)
    ensures var o := SyncSpec(respond, t, md5, repo, subdir);
      o.completion.Returned? &&
      (o.completion.response.Failure? ==>
        var n := |o.issued|;
        0 < n && !o.issued[n - 1].CreateBranch? && !o.issued[n - 1].ListBranches? &&
        respond(t + o.issued[..n - 1], o.issued[n - 1]) == Failed(o.completion.response.error)) &&
      (!o.completion.response.Failure? ==> o.completion.response == Synced && |o.issued| == 8)
  {
    if respond(t, Fetch).Done? {
      var t1 := t + [Fetch, ListBranches];
      var trunk := TrunkOf(respond(t + [Fetch], ListBranches));
      var p := RunSteps(respond, t1, SyncSteps(trunk, EditBranch(md5, repo, subdir)));
      SyncStepsStopAtFatalFailure(respond, t1, trunk, EditBranch(md5, repo, subdir));
      var issued := [Fetch, ListBranches] + p.issued;
      var n := |p.issued|;
      if p.error.Some? {
        assert issued[n + 1] == p.issued[n - 1];
        assert issued[..n + 1] == [Fetch, ListBranches] + p.issued[..n - 1];
        assert t + issued[..n + 1] == t1 + p.issued[..n - 1];
      }
    } else {
      assert t + [Fetch][..0] == t;
    }
  }

  // ------------------------------------------------------ commitEdition

  /**
   * `commitEdition` issues no command at all exactly when the repository is
   * outside a configured allow-list (checked first) or the session id is
   * empty, and answers with the matching message; otherwise its first
   * command checks out the edit branch of the normalised subdirectory.
   */
  lemma CommitValidatesBeforeAnyCommand(respond: Responder, t: seq<Action>, svc: Services, repo: string,
                                        subdir: string, sessionId: string, message: string)
    ensures var o := CommitSpec(respond, t, svc, repo, subdir, sessionId, message);
      var allowed := RepositoryAllowed(svc.cfg.allowedRepositories, repo);
      (o.issued == [] <==> !allowed || sessionId == "") &&
      (!allowed ==> o.completion == Returned(Failure("Repository not allowed"))) &&
      (allowed && sessionId == "" ==> o.completion == Returned(Failure("No session ID provided"))) &&
      (o.issued != [] ==> o.issued[0] == Checkout(EditBranch(svc.md5, repo, NormalizeSubdir(subdir))))
  {
    var steps := CommitSteps(svc, repo, subdir, sessionId, message);
    var first := Checkout(EditBranch(svc.md5, repo, NormalizeSubdir(subdir)));
    assert steps[0] == Do(first, false);
  }

  /**
   * With a parsable URL and no failing command, `commitEdition` checks out
   * the edit branch, removes the sidecar file, copies the session, adds,
   * commits under the editor's author and pushes to the remote carrying the
   * configured credentials of the provider, and reports success.
   */
  lemma CommitIssuesStepsInOrder(respond: Responder, t: seq<Action>, svc: Services, repo: string,
                                 subdir: string, sessionId: string, message: string)
    requires RepositoryAllowed(svc.cfg.allowedRepositories, repo) && sessionId != ""
    requires svc.parseUrl(repo).Some?
    requires forall u: seq<Action>, a: Action :: !a.CopySession? ==> respond(u, a).Done?
    ensures var sub := NormalizeSubdir(subdir);
      CommitSpec(respond, t, svc, repo, subdir, sessionId, message) ==
        Outcome([Checkout(EditBranch(svc.md5, repo, sub)), RemoveSidecar(sessionId), CopySession(sessionId, sub),
                 AddAll, Commit(message, CommitAuthor), Push(SetGitBackendUser(svc.cfg, repo, None, None))],
                Returned(Committed))
  {
    var sub := NormalizeSubdir(subdir);
    var steps := CommitSteps(svc, repo, subdir, sessionId, message);
    var issued := [Checkout(EditBranch(svc.md5, repo, sub)), RemoveSidecar(sessionId), CopySession(sessionId, sub),
                   AddAll, Commit(message, CommitAuthor), Push(SetGitBackendUser(svc.cfg, repo, None, None))];
    assert steps == [Do(issued[0], false), Do(issued[1], false), Do(issued[2], true),
                     Do(issued[3], false), Do(issued[4], false), Do(issued[5], false)];
    forall i, u | 0 <= i < |steps| && !steps[i].tolerated
      ensures respond(u, steps[i].action).Done?
    {
      assert !steps[i].action.CopySession?;
    }
    RunStepsWithoutFailures(respond, t, steps);
    ActionsOfCommands(steps);
    assert Actions(steps) == issued;
  }

  /**
   * A URL the parser rejects makes `commitEdition` throw before it adds,
   * commits or pushes anything.
   */
  lemma CommitWithMalformedUrlNeverPushes(respond: Responder, t: seq<Action>, svc: Services, repo: string,
                                          subdir: string, sessionId: string, message: string)
    requires RepositoryAllowed(svc.cfg.allowedRepositories, repo) && sessionId != ""
    requires svc.parseUrl(repo).None?
    ensures var o := CommitSpec(respond, t, svc, repo, subdir, sessionId, message);
      o.completion.Threw? && |o.issued| <= 3 &&
      forall i :: 0 <= i < |o.issued| ==> !o.issued[i].AddAll? && !o.issued[i].Commit? && !o.issued[i].Push?
  {
    var steps := CommitSteps(svc, repo, subdir, sessionId, message);
    assert steps[3] == Throw(InvalidUrl);
    RunStepsFollowsPlan(respond, t, steps);
    RunStepsSucceedsIff(respond, t, steps);
  }

  /**
   * With a rejected URL and the checkout and sidecar removal succeeding,
   * `commitEdition` throws the parser's message right after the session
   * copy.
   */
  lemma CommitWithMalformedUrlThrowsAfterCopy(respond: Responder, t: seq<Action>, svc: Services, repo: string,
                                              subdir: string, sessionId: string, message: string)
    requires RepositoryAllowed(svc.cfg.allowedRepositories, repo) && sessionId != ""
    requires svc.parseUrl(repo).None?
    requires var checkout := Checkout(EditBranch(svc.md5, repo, NormalizeSubdir(subdir)));
      respond(t, checkout).Done? && respond(t + [checkout], RemoveSidecar(sessionId)).Done?
    ensures var sub := NormalizeSubdir(subdir);
      CommitSpec(respond, t, svc, repo, subdir, sessionId, message) ==
        Outcome([Checkout(EditBranch(svc.md5, repo, sub)), RemoveSidecar(sessionId), CopySession(sessionId, sub)],
                Threw(InvalidUrl))
  {
    var sub := NormalizeSubdir(subdir);
    var checkout := Checkout(EditBranch(svc.md5, repo, sub));
    assert CommitSteps(svc, repo, subdir, sessionId, message) ==
      [Do(checkout, false), Do(RemoveSidecar(sessionId), false), Do(CopySession(sessionId, sub), true), Throw(InvalidUrl)];
    ThrowAfterThreeSteps(respond, t, checkout, RemoveSidecar(sessionId), CopySession(sessionId, sub), InvalidUrl);
  }

  /** Two fatal commands that succeed and a tolerated one, then a throw. */
  lemma ThrowAfterThreeSteps(respond: Responder, t: seq<Action>, a: Action, b: Action, c: Action, m: string)
    requires respond(t, a).Done? && respond(t + [a], b).Done?
    ensures RunSteps(respond, t, [Do(a, false), Do(b, false), Do(c, true), Throw(m)]) == Progress([a, b, c], Some(m))
  {
    var s3: seq<Step> := [Throw(m)];
    var s2 := [Do(c, true)] + s3;
    var s1 := [Do(b, false)] + s2;
    var s0 := [Do(a, false)] + s1;
    assert s0 == [Do(a, false), Do(b, false), Do(c, true), Throw(m)];
    assert RunSteps(respond, t + [a] + [b] + [c], s3) == Progress([], Some(m));
    assert s2[1..] == s3;
    assert RunSteps(respond, t + [a] + [b], s2) == Progress([c], Some(m));
    assert s1[1..] == s2;
    assert RunSteps(respond, t + [a], s1) == Progress([b, c], Some(m));
    assert s0[1..] == s1;
  }

  /**
   * A subdirectory sent with a leading and a trailing slash is committed on
   * the edit branch of the bare subdirectory, which is the branch
   * `updateGit` creates for the bare subdirectory, not for the slashed one.
   */
  lemma CommitUsesBranchOfBareSubdir(svc: Services, repo: string, q: string, sessionId: string, message: string,
                                     trunk: string)
    ensures CommitSteps(svc, repo, "/" + q + "/", sessionId, message)[0].action ==
      SyncSteps(trunk, EditBranch(svc.md5, repo, q))[3].action
  {
    NormalizeSubdirStripsOneSlashEachSide(q);
  }

  /**
   * ... and so, whenever the two digests differ in their first 8 digits, not
   * the branch `updateGit` creates for the slashed subdirectory it was given.
   */
  lemma CommitMissesBranchOfSlashedSubdir(svc: Services, repo: string, q: string, sessionId: string, message: string,
                                          trunk: string)
    requires svc.md5("/" + q + "/")[..8] != svc.md5(q)[..8]
    ensures CommitSteps(svc, repo, "/" + q + "/", sessionId, message)[0].action !=
      SyncSteps(trunk, EditBranch(svc.md5, repo, "/" + q + "/"))[3].action
  {
    CommitUsesBranchOfBareSubdir(svc, repo, q, sessionId, message, trunk);
    assert EditBranch(svc.md5, repo, q)[7..] == svc.md5(q)[..8];
    assert EditBranch(svc.md5, repo, "/" + q + "/")[7..] == svc.md5("/" + q + "/")[..8];
  }

  // ----------------------------------------------------- publishEdition

  /** The commands every publication starts with, after the branch listing. */
  function PreparePublish(trunk: string, editBranch: string, branch: string): seq<Action> {
    [Checkout(trunk), Pull, Checkout(editBranch), CreateBranch(branch), Checkout(branch)]
  }

  /** A run of a plan of commands none of which fails issues all of them and succeeds. */
  lemma PublishWithoutFailures(respond: Responder, t: seq<Action>, svc: Services, args: PublishArgs, digest: HexDigest)
    requires svc.parseUrl(args.repo).Some?
    requires forall u: seq<Action>, a: Action :: respond(u, a).Done?
    ensures var trunk := SelectTrunk(respond(t, ListBranches).output);
      var branch := PublishBranchName(digest);
      var steps := PublishSteps(svc, args, trunk, branch);
      |Actions(steps)| == |steps| &&
      PublishSpec(respond, t, svc, args, digest) ==
        Outcome([ListBranches] + Actions(steps), Returned(Published(args.kind, branch)))
  {
    var trunk := SelectTrunk(respond(t, ListBranches).output);
    var steps := PublishSteps(svc, args, trunk, PublishBranchName(digest));
    assert forall i :: 0 <= i < |steps| ==> steps[i].Do?;
    RunStepsWithoutFailures(respond, t + [ListBranches], steps);
  }

  /**
   * `prod` with no failing command: after preparing the publish branch it
   * merges the trunk into it, checks out the trunk, merges the publish
   * branch and pushes with the caller's credentials; no provider request.
   */
  lemma PublishToProduction(respond: Responder, t: seq<Action>, svc: Services, args: PublishArgs, digest: HexDigest)
    requires args.kind == "prod" && svc.parseUrl(args.repo).Some?
    requires forall u: seq<Action>, a: Action :: respond(u, a).Done?
    ensures var trunk := SelectTrunk(respond(t, ListBranches).output);
      var branch := PublishBranchName(digest);
      PublishSpec(respond, t, svc, args, digest) ==
        Outcome([ListBranches] + PreparePublish(trunk, EditBranch(svc.md5, args.repo, args.subdir), branch) +
                [Merge(trunk), Checkout(trunk), Merge(branch),
                 Push(SetGitUser(args.repo, Some(args.username), Some(args.password)))],
                Returned(PublishedToProduction))
  {
    var trunk := SelectTrunk(respond(t, ListBranches).output);
    var branch := PublishBranchName(digest);
    var steps := PublishSteps(svc, args, trunk, branch);
    PublishWithoutFailures(respond, t, svc, args, digest);
    ActionsOfCommands(steps);
    assert Actions(steps) == PreparePublish(trunk, EditBranch(svc.md5, args.repo, args.subdir), branch) +
      [Merge(trunk), Checkout(trunk), Merge(branch), Push(SetGitUser(args.repo, Some(args.username), Some(args.password)))];
  }

  /**
   * `mpr` with no failing command: the publish branch is pushed with the
   * provider's configured credentials and its name returned; no provider
   * request.
   */
  lemma PublishForManualRequest(respond: Responder, t: seq<Action>, svc: Services, args: PublishArgs, digest: HexDigest)
    requires args.kind == "mpr" && svc.parseUrl(args.repo).Some?
    requires forall u: seq<Action>, a: Action :: respond(u, a).Done?
    ensures var trunk := SelectTrunk(respond(t, ListBranches).output);
      var branch := PublishBranchName(digest);
      PublishSpec(respond, t, svc, args, digest) ==
        Outcome([ListBranches] + PreparePublish(trunk, EditBranch(svc.md5, args.repo, args.subdir), branch) +
                [Push(SetGitBackendUser(svc.cfg, args.repo, Some(args.username), Some(args.password)))],
                Returned(PublishBranch(branch)))
  {
    var trunk := SelectTrunk(respond(t, ListBranches).output);
    var branch := PublishBranchName(digest);
    var steps := PublishSteps(svc, args, trunk, branch);
    PublishWithoutFailures(respond, t, svc, args, digest);
    ActionsOfCommands(steps);
    assert Actions(steps) == PreparePublish(trunk, EditBranch(svc.md5, args.repo, args.subdir), branch) +
      [Push(SetGitBackendUser(svc.cfg, args.repo, Some(args.username), Some(args.password)))];
  }

  /**
   * Any other kind with no failing command: the publish branch is pushed,
   * then exactly one provider request asks to merge it into the trunk.
   */
  lemma PublishOpensRequest(respond: Responder, t: seq<Action>, svc: Services, args: PublishArgs, digest: HexDigest)
    requires args.kind != "prod" && args.kind != "mpr" && svc.parseUrl(args.repo).Some?
    requires forall u: seq<Action>, a: Action :: respond(u, a).Done?
    ensures var trunk := SelectTrunk(respond(t, ListBranches).output);
      var branch := PublishBranchName(digest);
      PublishSpec(respond, t, svc, args, digest) ==
        Outcome([ListBranches] + PreparePublish(trunk, EditBranch(svc.md5, args.repo, args.subdir), branch) +
                [Push(SetGitBackendUser(svc.cfg, args.repo, Some(args.username), Some(args.password))),
                 ProviderRequest(svc, args, svc.parseUrl(args.repo).value, branch, trunk)],
                Returned(RequestOpened))
  {
    var trunk := SelectTrunk(respond(t, ListBranches).output);
    var branch := PublishBranchName(digest);
    var steps := PublishSteps(svc, args, trunk, branch);
    PublishWithoutFailures(respond, t, svc, args, digest);
    ActionsOfCommands(steps);
    assert Actions(steps) == PreparePublish(trunk, EditBranch(svc.md5, args.repo, args.subdir), branch) +
      [Push(SetGitBackendUser(svc.cfg, args.repo, Some(args.username), Some(args.password))),
       ProviderRequest(svc, args, svc.parseUrl(args.repo).value, branch, trunk)];
  }

  /** In a publication plan, a provider request can only be the last step, and only for kinds other than `prod` and `mpr`. */
  lemma PublishPlanRequestIsLast(svc: Services, args: PublishArgs, trunk: string, branch: string)
    ensures var steps := PublishSteps(svc, args, trunk, branch);
      forall j :: 0 <= j < |steps| && steps[j].Do? && IsProviderRequest(steps[j].action) ==>
        j == |steps| - 1 && args.kind != "prod" && args.kind != "mpr" && svc.parseUrl(args.repo).Some? &&
        steps[j].action == ProviderRequest(svc, args, svc.parseUrl(args.repo).value, branch, trunk)
  {
    var steps := PublishSteps(svc, args, trunk, branch);
    assert forall j :: 0 <= j < 5 ==> !IsProviderRequest(steps[j].action);
    var route := RouteSteps(svc, args, trunk, branch);
    assert forall j :: 5 <= j < |steps| ==> steps[j] == route[j - 5];
  }

  /**
   * Whatever the world answers, a publication issues at most one provider
   * request: only as its last command, only for kinds other than `prod`
   * and `mpr`, and only the one `ProviderRequest` prescribes.
   */
  lemma PublishRequestsAtMostOnce(respond: Responder, t: seq<Action>, svc: Services, args: PublishArgs, digest: HexDigest)
    ensures var o := PublishSpec(respond, t, svc, args, digest);
      var trunk := TrunkOf(respond(t, ListBranches));
      forall i :: 0 <= i < |o.issued| && IsProviderRequest(o.issued[i]) ==>
        i == |o.issued| - 1 && args.kind != "prod" && args.kind != "mpr" && svc.parseUrl(args.repo).Some? &&
        o.issued[i] == ProviderRequest(svc, args, svc.parseUrl(args.repo).value, PublishBranchName(digest), trunk)
  {
    var trunk := TrunkOf(respond(t, ListBranches));
    var branch := PublishBranchName(digest);
    var steps := PublishSteps(svc, args, trunk, branch);
    var p := RunSteps(respond, t + [ListBranches], steps);
    RunStepsFollowsPlan(respond, t + [ListBranches], steps);
    PublishPlanRequestIsLast(svc, args, trunk, branch);
    var issued := [ListBranches] + p.issued;
    forall i | 0 <= i < |issued| && IsProviderRequest(issued[i])
      ensures i == |issued| - 1
      ensures issued[i] == ProviderRequest(svc, args, svc.parseUrl(args.repo).value, branch, trunk)
    {
      assert issued[i] == p.issued[i - 1] == Actions(steps)[i - 1];
    }
  }

  /**
   * A repository at `gitlab.com` with path `/owner/name` gets a merge
   * request on project `owner%2Fname`; any other host gets a pull request
   * on `repos/owner/name`. Both ask to merge the publish branch into the
   * trunk with the caller's title and body.
   */
  lemma ProviderRequestTargetsProject(svc: Services, args: PublishArgs, url: UrlParts, owner: string, name: string,
                                      branch: string, trunk: string)
    requires url.pathname == "/" + owner + "/" + name && '/' !in owner
    ensures var r := ProviderRequest(svc, args, url, branch, trunk);
      (url.hostname == "gitlab.com" ==>
        r == OpenMergeRequest(owner + "%2F" + name, OrElse(svc.gitlabToken, args.password),
                              MergeRequest(args.title, args.body, branch, trunk))) &&
      (url.hostname != "gitlab.com" ==>
        r == OpenPullRequest("/" + owner + "/" + name, OrElse(svc.cfg.githubPassword, args.password),
                             PullRequest(args.title, args.body, branch, trunk)))
  {
    GitlabProjectIdEncodesFirstSlash(owner, name);
  }
}
