/**
 * The edition engine drives the outside world through a fixed vocabulary of
 * commands: git commands on the shared working copy, the session-directory
 * chores around a commit and the two provider REST requests. Their
 * semantics are not modelled; the world is an oracle that answers each
 * command given every command issued before it, and the engine is judged
 * by the trace of commands it issues.
 */
module GitSteps {
  import opened Wrappers
  import Naming

  /** The body of a GitLab merge request. */
  datatype MergeRequest = MergeRequest(title: string, description: string, sourceBranch: string, targetBranch: string)

  /** The body of a GitHub pull request. */
  datatype PullRequest = PullRequest(title: string, body: string, head: string, base: string)

  datatype Action =
    | Fetch
    | ListBranches
    | Checkout(ref: string)
    | Pull
    | CreateBranch(name: string)
    | SetUpstream(upstream: string, branch: string)
    | RemoveSidecar(sessionId: string)          // unlink variables.json from the session directory, if present
    | CopySession(sessionId: string, subdir: string)
    | AddAll
    | Commit(message: string, author: string)
    | Push(remote: Naming.Remote)
    | Merge(ref: string)
    | OpenMergeRequest(projectId: string, token: string, mr: MergeRequest)
    | OpenPullRequest(repoPath: string, token: string, pr: PullRequest)

  predicate IsProviderRequest(a: Action) {
    a.OpenMergeRequest? || a.OpenPullRequest?
  }

  /** A command either succeeds with its output lines or fails with a message. */
  datatype Reply = Done(output: seq<string>) | Failed(message: string)

  /** The world's answer to a command, given the commands issued before it. */
  type Responder = (seq<Action>, Action) -> Reply

  /** The outside world as the engine sees it: an oracle and the trace so far. */
  class World {
    const respond: Responder
    var trace: seq<Action>

    constructor (respond: Responder)
      ensures this.respond == respond && trace == []
    {
      this.respond := respond;
      trace := [];
    }

    /** Issues one command. */
    method Perform(a: Action) returns (reply: Reply)
      modifies this
      ensures trace == old(trace) + [a]
      ensures reply == respond(old(trace), a)
    {
      reply := respond(trace, a);
      trace := trace + [a];
    }
  }

  // ------------------------------------------------- reference semantics

  /**
   * One step of an operation: a command whose failure is either fatal or
   * tolerated (`.catch(() => {})`), or an exception raised by the engine
   * itself between commands.
   */
  datatype Step = Do(action: Action, tolerated: bool) | Throw(message: string)

  /** The commands issued and the message of the failure that stopped the run, if any. */
  datatype Progress = Progress(issued: seq<Action>, error: Option<string>)

  /** The commands of the steps before the first `Throw`. */
  function Actions(steps: seq<Step>): (r: seq<Action>)
    ensures |r| <= |steps|
    ensures forall i :: 0 <= i < |r| ==> steps[i].Do? && r[i] == steps[i].action
    ensures |r| < |steps| ==> steps[|r|].Throw?
  {
    if steps == [] || steps[0].Throw? then []
    else [steps[0].action] + Actions(steps[1..])
  }

  /**
   * Runs the steps against the oracle after the trace `t`, stopping at the
   * first fatal failure or `Throw`.
   */
  function RunSteps(respond: Responder, t: seq<Action>, steps: seq<Step>): Progress
    decreases steps
  {
    if steps == [] then Progress([], None)
    else match steps[0]
      case Throw(m) => Progress([], Some(m))
      case Do(a, tolerated) =>
        var reply := respond(t, a);
        if reply.Failed? && !tolerated then Progress([a], Some(reply.message))
        else
          var rest := RunSteps(respond, t + [a], steps[1..]);
          Progress([a] + rest.issued, rest.error)
  }

  /**
   * A run issues a prefix of the planned commands, and all of them when it
   * ends without error.
   */
  lemma {:induction false} RunStepsFollowsPlan(respond: Responder, t: seq<Action>, steps: seq<Step>)
    ensures var p := RunSteps(respond, t, steps);
      |p.issued| <= |Actions(steps)| && p.issued == Actions(steps)[..|p.issued|] &&
      (p.error.None? ==> p.issued == Actions(steps))
    decreases steps
  {
    if steps != [] && steps[0].Do? {
      var a := steps[0].action;
      RunStepsFollowsPlan(respond, t + [a], steps[1..]);
    }
  }

  /** `p` preceded by the commands `done`. */
  function After(done: seq<Action>, p: Progress): Progress {
    Progress(done + p.issued, p.error)
  }

  /** A step passes: it is a command, and it is tolerated or answered with success. */
  predicate Passes(respond: Responder, t: seq<Action>, s: Step) {
    s.Do? && (s.tolerated || respond(t, s.action).Done?)
  }

  /** A run ends without error exactly when every step passes. */
  lemma {:induction false} RunStepsSucceedsIff(respond: Responder, t: seq<Action>, steps: seq<Step>)
    ensures RunSteps(respond, t, steps).error.None? <==>
      |Actions(steps)| == |steps| &&
      forall i :: 0 <= i < |steps| ==> Passes(respond, t + Actions(steps)[..i], steps[i])
    decreases steps
  {
    if steps != [] && steps[0].Do? {
      var a := steps[0].action;
      var tail := steps[1..];
      RunStepsSucceedsIff(respond, t + [a], tail);
      var all := Actions(steps);
      assert all == [a] + Actions(tail);
      forall i | 1 <= i < |steps| && |Actions(tail)| == |tail|
        ensures t + all[..i] == (t + [a]) + Actions(tail)[..i - 1]
      {
        assert all[..i] == [a] + Actions(tail)[..i - 1];
      }
      if Passes(respond, t, steps[0]) && |Actions(tail)| == |tail| {
        if forall i :: 0 <= i < |tail| ==> Passes(respond, (t + [a]) + Actions(tail)[..i], tail[i]) {
          forall i | 0 <= i < |steps|
            ensures Passes(respond, t + all[..i], steps[i])
          {
            if i > 0 {
              assert steps[i] == tail[i - 1];
              assert Passes(respond, (t + [a]) + Actions(tail)[..i - 1], tail[i - 1]);
              assert t + all[..i] == (t + [a]) + Actions(tail)[..i - 1];
            } else {
              assert t + all[..0] == t;
            }
          }
        } else {
          var i :| 0 <= i < |tail| && !Passes(respond, (t + [a]) + Actions(tail)[..i], tail[i]);
          assert steps[i + 1] == tail[i];
        }
      } else if !Passes(respond, t, steps[0]) {
        assert t + all[..0] == t;
      }
    }
  }

  /**
   * The error of `p` is explained by `steps`: `p` either reached a `Throw`
   * after issuing every command before it, or stopped at a command that
   * failed fatally with exactly that message.
   */
  predicate ErrorExplained(respond: Responder, t: seq<Action>, steps: seq<Step>, p: Progress)
    requires p.error.Some?
  {
    var n := |p.issued|;
    (n < |steps| && steps[n] == Throw(p.error.value)) ||
    (0 < n && n <= |steps| && steps[n - 1] == Do(p.issued[n - 1], false) &&
     respond(t + p.issued[..n - 1], p.issued[n - 1]) == Failed(p.error.value))
  }

  /** An explanation of the rest of a run explains the whole run. */
  lemma ErrorExplainedAfterOne(respond: Responder, t: seq<Action>, steps: seq<Step>, q: Progress)
    requires steps != [] && steps[0].Do? && q.error.Some?
    requires ErrorExplained(respond, t + [steps[0].action], steps[1..], q)
    ensures ErrorExplained(respond, t, steps, Progress([steps[0].action] + q.issued, q.error))
  {
    var a := steps[0].action;
    var n := |q.issued|;
    var p := Progress([a] + q.issued, q.error);
    if n < |steps| - 1 && steps[1..][n] == Throw(q.error.value) {
      assert steps[n + 1] == steps[1..][n];
    } else {
      assert steps[n] == steps[1..][n - 1];
      assert p.issued[n] == q.issued[n - 1];
      assert p.issued[..n] == [a] + q.issued[..n - 1];
      assert t + p.issued[..n] == (t + [a]) + q.issued[..n - 1];
    }
  }

  /** Every run that ends in error is explained by its steps. */
  lemma {:induction false} RunStepsErrorSource(respond: Responder, t: seq<Action>, steps: seq<Step>)
    requires RunSteps(respond, t, steps).error.Some?
    ensures ErrorExplained(respond, t, steps, RunSteps(respond, t, steps))
    decreases steps
  {
    match steps[0]
    case Throw(m) =>
    case Do(a, tolerated) =>
      if respond(t, a).Failed? && !tolerated {
        assert t + [a][..0] == t;
      } else {
        RunStepsErrorSource(respond, t + [a], steps[1..]);
        ErrorExplainedAfterOne(respond, t, steps, RunSteps(respond, t + [a], steps[1..]));
      }
  }

  /** All steps of a plan are commands: its commands are exactly theirs. */
  lemma ActionsOfCommands(steps: seq<Step>)
    requires forall i :: 0 <= i < |steps| ==> steps[i].Do?
    ensures |Actions(steps)| == |steps|
    ensures forall i :: 0 <= i < |steps| ==> Actions(steps)[i] == steps[i].action
  {
  }

  /** When every step is a command that cannot fail fatally, all commands are issued. */
  lemma RunStepsWithoutFailures(respond: Responder, t: seq<Action>, steps: seq<Step>)
    requires forall i :: 0 <= i < |steps| ==> steps[i].Do?
    requires forall i, u :: 0 <= i < |steps| && !steps[i].tolerated ==> respond(u, steps[i].action).Done?
    ensures RunSteps(respond, t, steps) == Progress(Actions(steps), None)
    ensures |Actions(steps)| == |steps|
  {
    RunStepsSucceedsIff(respond, t, steps);
    RunStepsFollowsPlan(respond, t, steps);
  }

  /** Running the rest of the steps after one passing command. */
  lemma RunStepsUnfold(respond: Responder, t: seq<Action>, done: seq<Action>, rest: seq<Step>)
    requires rest != [] && rest[0].Do?
    requires rest[0].tolerated || respond(t + done, rest[0].action).Done?
    ensures After(done, RunSteps(respond, t + done, rest)) ==
      After(done + [rest[0].action], RunSteps(respond, t + (done + [rest[0].action]), rest[1..]))
  {
    assert (t + done) + [rest[0].action] == t + (done + [rest[0].action]);
  }

  /**
   * Issues the first command of `rest`, the steps still to run of `steps`
   * after `done`, and reports a fatal failure. The ghost parameters carry
   * the correspondence between the world's trace and `RunSteps`.
   */
  method Attempt(world: World, ghost t0: seq<Action>, ghost steps: seq<Step>, ghost done: seq<Action>,
                 a: Action, tolerated: bool, ghost rest: seq<Step>) returns (error: Option<string>)
    requires world.trace == t0 + done
    requires RunSteps(world.respond, t0, steps) == After(done, RunSteps(world.respond, t0 + done, [Do(a, tolerated)] + rest))
    modifies world
    ensures world.trace == t0 + (done + [a])
    ensures error.Some? ==> RunSteps(world.respond, t0, steps) == Progress(done + [a], error)
    ensures error.None? ==>
      RunSteps(world.respond, t0, steps) == After(done + [a], RunSteps(world.respond, t0 + (done + [a]), rest))
  {
    var reply := world.Perform(a);
    if reply.Failed? && !tolerated {
      return Some(reply.message);
    }
    RunStepsUnfold(world.respond, t0, done, [Do(a, tolerated)] + rest);
    assert ([Do(a, tolerated)] + rest)[1..] == rest;
    return None;
  }
}
