/** TrunkFixer.cs: makes `master` the local branch of SVN's trunk. When
    the remote branches list a trunk, `master` is recreated from it;
    otherwise `master` is checked out as it is. */
module TrunkFixer {
  import opened Wrappers
  import opened Seqs
  import opened Text
  import opened GitOps
  import opened Gateway
  import opened SharedState

  /** `FirstOrDefault(b => b.Trim() == "trunk")`. */
  function FindTrunk(remote: seq<string>): (r: Option<string>)
    ensures r.Some? ==> r.value in remote && Trim(r.value) == "trunk"
    ensures r.None? <==> forall b <- remote :: Trim(b) != "trunk"
  {
    if remote == [] then None
    else if Trim(remote[0]) == "trunk" then Some(remote[0])
    else FindTrunk(remote[1..])
  }

  /** The match found is the first one in the list. */
  lemma {:induction false} FindTrunkFirst(remote: seq<string>, i: nat)
    requires i < |remote| && Trim(remote[i]) == "trunk"
    requires forall j :: 0 <= j < i ==> Trim(remote[j]) != "trunk"
    ensures FindTrunk(remote) == Some(remote[i])
  {
    if i > 0 {
      assert Trim(remote[0]) != "trunk";
      assert remote[1..][i - 1] == remote[i];
      FindTrunkFirst(remote[1..], i - 1);
    }
  }

  /** The requests made when a trunk is found: `master` is recreated from
      `svn/trunk`. */
  function RecreateOps(): seq<Op>
  {
    [Checkout("svn/trunk", false), DeleteBranch("master", false), CheckoutAndCreateBranch("master")]
  }

  /** The requests the step makes for the given remote branches. */
  function Plan(remote: seq<string>): seq<Op>
  {
    if FindTrunk(remote).Some? then RecreateOps() else [Checkout("master", true)]
  }

  /** The branch of `Run` taken when a trunk is found. */
  method RecreateMaster(git: GitGateway) returns (res: Outcome<Error>)
    requires git.Valid()
    modifies git
    ensures old(git.probes) <= git.probes
    ensures git.Valid()
    ensures git.committerDate == old(git.committerDate)
    ensures git.Trace == old(git.Trace) + Issued(RecreateOps(), git.fails)
    ensures res == Verdict(RecreateOps(), git.fails)
  {
    var checkout, delete, create := Checkout("svn/trunk", false), DeleteBranch("master", false), CheckoutAndCreateBranch("master");
    OutcomeOfThree(checkout, delete, create, git.fails);
    res := git.Call(checkout);
    if res.Fail? {
      return;
    }
    res := git.Call(delete);
    AppendAssoc(old(git.Trace), [checkout], [delete]);
    if res.Fail? {
      return;
    }
    res := git.Call(create);
    AppendAssoc(old(git.Trace), [checkout, delete], [create]);
  }

  /** `Run`: with a trunk among the remote branches, `master` is recreated
      from it; otherwise `master` is checked out, forced. */
  method Run(data: SharedData, git: GitGateway) returns (res: Outcome<Error>)
    requires git.Valid()
    modifies git
    ensures old(git.probes) <= git.probes
    ensures git.Valid()
    ensures git.committerDate == old(git.committerDate)
    ensures git.Trace == old(git.Trace) + Issued(Plan(data.remoteBranches), git.fails)
    ensures res == Verdict(Plan(data.remoteBranches), git.fails)
  {
    var trunk := FindTrunk(data.remoteBranches);
    if trunk.Some? {
      res := RecreateMaster(git);
    } else {
      res := git.Call(Checkout("master", true));
    }
  }

  /** A branch name git-svn lists under its `svn/` prefix never trims to
      `trunk`. */
  lemma PrefixedIsNotTrunk(b: string)
    requires StartsWith(b, "svn/")
    ensures Trim(b) != "trunk"
  {
    StripSlice(b, IsWhiteSpace);
    assert b[0] == 's';
  }

  /** When every remote branch carries git-svn's `svn/` prefix (as a clone
      made with `--prefix=svn/` lists them), no trunk is found and the step
      only checks out `master`. */
  lemma PrefixedRemotesKeepMaster(remote: seq<string>)
    requires forall b <- remote :: StartsWith(b, "svn/")
    ensures Plan(remote) == [Checkout("master", true)]
  {
    forall b <- remote ensures Trim(b) != "trunk" {
      PrefixedIsNotTrunk(b);
    }
  }
}
