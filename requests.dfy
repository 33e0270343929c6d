/**
 * Request handling of the edition API (backend/edition.ts): the request
 * arguments read from the body with an empty-string default, the allow-list
 * gate every route passes first, and the wrapper that turns an exception
 * into a failure response.
 */
module Requests {
  import opened Wrappers
  import opened Naming
  import opened GitSteps
  import opened Edition

  /** Each argument and the body field it is read from, in the order they are read. */
  const ArgFields: seq<(string, string)> := [
    ("repo", "gitUrl"), ("path", "gitPath"), ("username", "gitUsername"), ("password", "gitPassword"),
    ("hash", "hash"), ("sessionId", "session"), ("commitMsg", "commitMsg"), ("type", "type"),
    ("prTitle", "prTitle"), ("prBody", "prBody"), ("target", "target")]

  /** `body[field] || ''`: a missing field reads as the empty string. */
  function BodyValue(body: map<string, string>, field: string): string {
    if field in body then body[field] else ""
  }

  /** The argument names are pairwise distinct, so no argument overwrites another. */
  lemma ArgNamesDistinct()
    ensures forall i, j :: 0 <= i < j < |ArgFields| ==> ArgFields[i].0 != ArgFields[j].0
  {
  }

  /**
   * `queryToArgs`: every argument is present, and each is its body field or
   * the empty string.
   */
  method QueryToArgs(body: map<string, string>) returns (args: map<string, string>)
    ensures args.Keys == set i | 0 <= i < |ArgFields| :: ArgFields[i].0
    ensures forall i :: 0 <= i < |ArgFields| ==> args[ArgFields[i].0] == BodyValue(body, ArgFields[i].1)
  {
    ArgNamesDistinct();
    args := map[];
    for n := 0 to |ArgFields|
      invariant args.Keys == set i | 0 <= i < n :: ArgFields[i].0
      invariant forall i :: 0 <= i < n ==> args[ArgFields[i].0] == BodyValue(body, ArgFields[i].1)
    {
      args := args[ArgFields[n].0 := BodyValue(body, ArgFields[n].1)];
    }
  }

  /**
   * The gate in front of every edition route: the arguments are read, then a
   * repository outside a configured allow-list is answered with 403 before
   * any handler runs.
   */
  method AdmitRequest(cfg: GitConfig, body: map<string, string>) returns (status: Option<nat>, args: map<string, string>)
    ensures status == None || status == Some(403)
    ensures status == Some(403) <==> !RepositoryAllowed(cfg.allowedRepositories, BodyValue(body, "gitUrl"))
    ensures "repo" in args && args["repo"] == BodyValue(body, "gitUrl")
  {
    args := QueryToArgs(body);
    assert ArgFields[0] == ("repo", "gitUrl");
    if !RepositoryAllowed(cfg.allowedRepositories, args["repo"]) {
      return Some(403), args;
    }
    return None, args;
  }

  /** `makeErrorFunction`: an exception becomes a failure response carrying its message. */
  function MakeErrorFunction(c: Completion): (r: Response)
    ensures r.Failure? <==> c.Threw? || c.response.Failure?
    ensures c.Threw? ==> r == Failure(c.message)
    ensures !r.Failure? ==> c == Returned(r)
  {
    match c
    case Returned(r) => r
    case Threw(message) => Failure(message)
  }

  /**
   * The response to a commit request: `Committed` exactly when the inputs
   * are valid, the URL parses and every step passes; any other outcome,
   * including an exception, is a failure response.
   */
  lemma CommitResponse(respond: Responder, t: seq<Action>, svc: Services, repo: string, subdir: string,
                       sessionId: string, message: string)
    ensures var r := MakeErrorFunction(CommitSpec(respond, t, svc, repo, subdir, sessionId, message).completion);
      var steps := CommitSteps(svc, repo, subdir, sessionId, message);
      (r.Failure? || r == Committed) &&
      (r == Committed <==>
        RepositoryAllowed(svc.cfg.allowedRepositories, repo) && sessionId != "" && svc.parseUrl(repo).Some? &&
        forall i :: 0 <= i < |steps| ==> Passes(respond, t + Actions(steps)[..i], steps[i]))
  {
    var steps := CommitSteps(svc, repo, subdir, sessionId, message);
    if RepositoryAllowed(svc.cfg.allowedRepositories, repo) && sessionId != "" {
      RunStepsSucceedsIff(respond, t, steps);
      var p := RunSteps(respond, t, steps);
      assert MakeErrorFunction(CommitSpec(respond, t, svc, repo, subdir, sessionId, message).completion) ==
        if p.error.Some? then Failure(p.error.value) else Committed;
      if svc.parseUrl(repo).None? {
        assert steps[3] == Throw(InvalidUrl);
        assert !Passes(respond, t + Actions(steps)[..3], steps[3]);
      }
    }
  }
}
