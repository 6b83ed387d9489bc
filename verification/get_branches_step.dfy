/** GetBranchesStep.cs: reads the local and remote branch lists from git
    and derives the tag list from the remote one. */
module GetBranchesStep {
  import opened Wrappers
  import opened GitOps
  import opened Gateway
  import opened SharedState
  import opened SvnBranches

  /** The requests the step makes. */
  const Plan: seq<Op> := [ListLocalBranches, ListRemoteBranches]

  /** How the two requests end: the first one that throws stops the step. */
  lemma PlanOutcome(fails: Op -> bool)
    ensures Issued(Plan, fails) == if Fails(fails, ListLocalBranches) then [ListLocalBranches] else Plan
    ensures Verdict(Plan, fails) == if Fails(fails, ListLocalBranches) then Fail(CommandFailed(ListLocalBranches))
      else if Fails(fails, ListRemoteBranches) then Fail(CommandFailed(ListRemoteBranches)) else Pass
  {
  }

  /** The shared data `Run` leaves: each list is stored as soon as git has
      answered for it, so a failing remote listing leaves the new local
      list in place and the remote and tag lists as they were; the tags are
      recomputed from a new remote list. */
  function After(d: Shared, output: Op -> string, fails: Op -> bool): Shared
  {
    var local := if Fails(fails, ListLocalBranches) then d.localBranches else ParseBranchList(output(ListLocalBranches));
    if Verdict(Plan, fails) == Pass then
      var remote := ParseBranchList(output(ListRemoteBranches));
      d.(localBranches := local, remoteBranches := remote, tags := TagsOf(remote))
    else d.(localBranches := local)
  }

  /** `Run`. */
  method Run(data: SharedData, git: GitGateway) returns (res: Outcome<Error>)
    requires git.Valid()
    modifies data, git
    ensures old(git.probes) <= git.probes
    ensures git.Valid()
    ensures git.committerDate == old(git.committerDate)
    ensures git.Trace == old(git.Trace) + Issued(Plan, git.fails)
    ensures res == Verdict(Plan, git.fails)
    ensures data.Value() == After(old(data.Value()), git.output, git.fails)
  {
    PlanOutcome(git.fails);
    var local := git.GetLocalBranches();
    if local.Failure? {
      return Fail(local.error);
    }
    data.localBranches := local.value;
    var remote := git.GetRemoteBranches();
    if remote.Failure? {
      return Fail(remote.error);
    }
    data.remoteBranches := remote.value;
    data.tags := TagsOf(remote.value);
    res := Pass;
  }
}
