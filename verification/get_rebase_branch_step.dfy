/** GetRebaseBranchStep.cs: narrows the branch lists down to the one branch
    the user asked to rebase. No git request is made. */
module GetRebaseBranchStep {
  import opened Wrappers
  import opened Seqs
  import opened Text
  import opened GitOps
  import opened Options
  import opened SharedState

  /** The local branches equal to the requested name (`FindAll(l => l == name)`). */
  function Matching(local: seq<string>, name: string): seq<string>
  {
    Filter(local, l => l == name)
  }

  /** The remote branches whose name contains the requested one. */
  function Containing(remote: seq<string>, name: string): seq<string>
  {
    Filter(remote, r => Contains(r, name))
  }

  /** The local branches found are as many copies of the name as the list holds. */
  lemma {:induction false} MatchingCount(local: seq<string>, name: string)
    ensures |Matching(local, name)| == Count(local, name)
    ensures forall l <- Matching(local, name) :: l == name
  {
    if local != [] {
      MatchingCount(local[1..], name);
    }
  }

  function TooManyLocals(found: seq<string>): string
  {
    "To many matching branches found (" + Join(found, ", ") + ")."
  }

  function NoLocal(name: string): string
  {
    "No local branch named \"" + name + "\" found."
  }

  function TooManyRemotes(found: seq<string>): string
  {
    "To many matching remotes found (" + Join(found, ", ") + ")."
  }

  function NoRemote(name: string): string
  {
    "No remote branch named \"" + name + "\" found."
  }

  /** How `Run` ends for the branch lists and the rebase-branch option it
      finds. With no rebase branch set, `Contains(null)` throws as soon as
      there is a remote branch to test; with no remote branch either, the
      lookup of the local branch fails with an empty name. Otherwise the
      checks run in order: more than one local match, none, more than two
      remote matches, none. */
  function Decision(local: seq<string>, remote: seq<string>, name: Option<string>): Outcome<Error>
  {
    match name
    case None => Fail(if remote != [] then ArgumentNull("value") else InvalidOperation(NoLocal("")))
    case Some(n) =>
      var remotes := Containing(remote, n);
      if Count(local, n) > 1 then Fail(InvalidOperation(TooManyLocals(Matching(local, n))))
      else if Count(local, n) == 0 then Fail(InvalidOperation(NoLocal(n)))
      else if |remotes| > 2 then Fail(InvalidOperation(TooManyRemotes(remotes)))
      else if remotes == [] then Fail(InvalidOperation(NoRemote(n)))
      else Pass
  }

  /** The shared data `Run` leaves: only when all checks pass are the lists
      replaced (and the tag list cleared); a refusal leaves the data as it
      was. */
  function Narrowed(d: Shared): Shared
  {
    match d.options.rebaseBranch
    case None => d
    case Some(n) =>
      if Decision(d.localBranches, d.remoteBranches, d.options.rebaseBranch) == Pass
      then d.(localBranches := [n], remoteBranches := Containing(d.remoteBranches, n), tags := [])
      else d
  }

  /** `Run`: no git request is made. */
  method Run(data: SharedData) returns (res: Outcome<Error>)
    modifies data
    ensures res == Decision(old(data.localBranches), old(data.remoteBranches), old(data.options.rebaseBranch))
    ensures data.Value() == Narrowed(old(data.Value()))
  {
    var name := data.options.rebaseBranch;
    if name.None? {
      if data.remoteBranches != [] {
        return Fail(ArgumentNull("value"));
      }
      return Fail(InvalidOperation(NoLocal("")));
    }
    var n := name.value;
    var local := Matching(data.localBranches, n);
    var remote := Containing(data.remoteBranches, n);
    MatchingCount(data.localBranches, n);
    if |local| > 1 {
      return Fail(InvalidOperation(TooManyLocals(local)));
    }
    if |local| == 0 {
      return Fail(InvalidOperation(NoLocal(n)));
    }
    if |remote| > 2 {
      return Fail(InvalidOperation(TooManyRemotes(remote)));
    }
    if |remote| == 0 {
      return Fail(InvalidOperation(NoRemote(n)));
    }
    assert local == [n] by {
      assert local[0] in local;
    }
    data.localBranches := local;
    data.remoteBranches := remote;
    data.tags := [];
    res := Pass;
  }

  /** After a successful narrowing, the remote list is one or two of the
      old remote branches, in their old order, each naming the rebase branch. */
  lemma NarrowedRemotes(remote: seq<string>, name: string)
    requires 1 <= |Containing(remote, name)| <= 2
    ensures IsSubsequence(Containing(remote, name), remote)
    ensures forall r <- Containing(remote, name) :: Contains(r, name)
    ensures forall r <- remote :: Contains(r, name) ==> r in Containing(remote, name)
  {
    FilterIsSubsequence(remote, r => Contains(r, name));
    FilterMembers(remote, r => Contains(r, name));
  }

  /** The requested branch itself, listed once, passes the local checks; a
      name listed twice is refused as ambiguous. */
  lemma LocalChecks(local: seq<string>, name: string)
    ensures Count(local, name) == 1 ==> Matching(local, name) == [name]
    ensures Count(local, name) >= 2 ==> |Matching(local, name)| >= 2
  {
    MatchingCount(local, name);
    if Count(local, name) == 1 {
      assert Matching(local, name)[0] in Matching(local, name);
    }
  }
}
