/** RebaseBranchFixer.cs: after a fetch, rebases every SVN branch that
    already has its local branch onto its remote-tracking branch. */
module RebaseBranchFixer {
  import opened Wrappers
  import opened Seqs
  import opened Text
  import opened GitOps
  import opened Gateway
  import opened SharedState
  import opened SvnBranches
  import LegacyBranchFixer

  /** The local branch a leaf is rebased on: `trunk` lives on `master`. */
  function LocalBranchOf(leaf: string): string
  {
    if leaf == "trunk" then "master" else leaf
  }

  /** The requests made for one leaf: a forced checkout of its local branch
      and the rebase, or nothing for a leaf without a local branch. */
  function LeafOps(leaf: string, local: seq<string>): seq<Op>
  {
    if HasLocal(leaf, local) then [Checkout(LocalBranchOf(leaf), true), RebaseBranch(leaf)] else []
  }

  /** The requests made for a run of candidate branches, in order. */
  function Rebases(branches: seq<string>, local: seq<string>): seq<Op>
  {
    if branches == [] then []
    else Rebases(branches[..|branches| - 1], local) + LeafOps(LeafName(branches[|branches| - 1]), local)
  }

  /** The requests `Run` makes for the shared data. */
  function Plan(remote: seq<string>, tags: seq<string>, local: seq<string>): seq<Op>
  {
    [Fetch] + Rebases(Candidates(remote, tags), local)
  }

  lemma RebasesSnoc(branches: seq<string>, i: nat, local: seq<string>)
    requires i < |branches|
    ensures Rebases(branches[..i + 1], local) == Rebases(branches[..i], local) + LeafOps(LeafName(branches[i]), local)
  {
    assert branches[..i + 1][..i] == branches[..i];
  }

  lemma {:induction false} RebasesPrefix(branches: seq<string>, i: nat, local: seq<string>)
    requires i <= |branches|
    ensures Rebases(branches[..i], local) <= Rebases(branches, local)
    decreases |branches|
  {
    if i < |branches| {
      var front := branches[..|branches| - 1];
      assert front[..i] == branches[..i];
      RebasesPrefix(front, i, local);
    } else {
      assert branches[..i] == branches;
    }
  }

  /** One pass of the loop body. */
  method RebaseLeaf(git: GitGateway, leaf: string, local: seq<string>) returns (res: Outcome<Error>)
    requires git.Valid()
    modifies git
    ensures old(git.probes) <= git.probes
    ensures git.Valid()
    ensures git.committerDate == old(git.committerDate)
    ensures git.Trace == old(git.Trace) + Issued(LeafOps(leaf, local), git.fails)
    ensures res == Verdict(LeafOps(leaf, local), git.fails)
  {
    if !HasLocal(leaf, local) {
      return Pass;
    }
    var localBranch := if leaf == "trunk" then "master" else leaf;
    OutcomeOfTwo(Checkout(localBranch, true), RebaseBranch(leaf), git.fails);
    res := git.Call(Checkout(localBranch, true));
    if res.Fail? {
      return;
    }
    res := git.Call(RebaseBranch(leaf));
    AppendAssoc(old(git.Trace), [Checkout(localBranch, true)], [RebaseBranch(leaf)]);
  }

  /** The loop of `Run` over the candidates; the first request that throws
      ends it. */
  method RebaseAll(git: GitGateway, branches: seq<string>, local: seq<string>) returns (res: Outcome<Error>)
    requires git.Valid()
    modifies git
    ensures old(git.probes) <= git.probes
    ensures git.Valid()
    ensures git.committerDate == old(git.committerDate)
    ensures git.Trace == old(git.Trace) + Issued(Rebases(branches, local), git.fails)
    ensures res == Verdict(Rebases(branches, local), git.fails)
  {
    ghost var rebases := Rebases(branches, local);
    ghost var done: seq<Op> := [];
    var i := 0;
    while i < |branches|
      invariant 0 <= i <= |branches|
      invariant git.Valid()
      invariant old(git.probes) <= git.probes
      invariant git.committerDate == old(git.committerDate)
      invariant done == Rebases(branches[..i], local)
      invariant git.Trace == old(git.Trace) + done
      invariant Verdict(done, git.fails) == Pass
    {
      ghost var g := LeafOps(LeafName(branches[i]), local);
      RebasesSnoc(branches, i, local);
      RebasesPrefix(branches, i + 1, local);
      var r := RebaseLeaf(git, LeafName(branches[i]), local);
      TraceAfterGroup(old(git.Trace), done, g, rebases, git.fails, git.Trace);
      if r.Fail? {
        return r;
      }
      done := done + g;
      i := i + 1;
    }
    assert branches[..i] == branches;
    VerdictPass(rebases, git.fails);
    res := Pass;
  }

  /** `Run`: the fetch, then the candidates in order; the first request that
      throws ends the step. */
  method Run(data: SharedData, git: GitGateway) returns (res: Outcome<Error>)
    requires git.Valid()
    modifies git
    ensures old(git.probes) <= git.probes
    ensures git.Valid()
    ensures git.committerDate == old(git.committerDate)
    ensures git.Trace == old(git.Trace) + Issued(Plan(data.remoteBranches, data.tags, data.localBranches), git.fails)
    ensures res == Verdict(Plan(data.remoteBranches, data.tags, data.localBranches), git.fails)
  {
    var branches := Candidates(data.remoteBranches, data.tags);
    ghost var rebases := Rebases(branches, data.localBranches);
    assert Plan(data.remoteBranches, data.tags, data.localBranches) == [Fetch] + rebases;
    res := git.Call(Fetch);
    if res.Fail? {
      IssuedAppendFail([Fetch], rebases, git.fails);
      return;
    }
    IssuedAppendPass([Fetch], rebases, git.fails);
    res := RebaseAll(git, branches, data.localBranches);
    AppendAssoc(old(git.Trace), [Fetch], Issued(rebases, git.fails));
  }

  /** Every rebase is issued right after the forced checkout of the local
      branch it rebases. */
  lemma {:induction false} RebaseAfterCheckout(branches: seq<string>, local: seq<string>)
    ensures forall k :: 0 <= k < |Rebases(branches, local)| && Rebases(branches, local)[k].RebaseBranch? ==>
      k > 0 && Rebases(branches, local)[k - 1] == Checkout(LocalBranchOf(Rebases(branches, local)[k].remoteBranch), true)
  {
    if branches != [] {
      var front := branches[..|branches| - 1];
      var a := Rebases(front, local);
      var g := LeafOps(LeafName(branches[|branches| - 1]), local);
      RebaseAfterCheckout(front, local);
      var p := a + g;
      assert Rebases(branches, local) == p;
      forall k | 0 <= k < |p| && p[k].RebaseBranch?
        ensures k > 0 && p[k - 1] == Checkout(LocalBranchOf(p[k].remoteBranch), true)
      {
        if k < |a| {
          assert p[k] == a[k] && a[k].RebaseBranch?;
          assert p[k - 1] == a[k - 1];
        } else {
          assert p[k] == g[k - |a|];
          assert k - |a| == 1 && p[k - 1] == g[0];
        }
      }
    }
  }

  /** Exactly the leaves that have a local branch (or are `trunk`) are
      rebased, and only the forced checkouts and rebases are issued. */
  lemma {:induction false} RebasedLeaves(branches: seq<string>, local: seq<string>)
    ensures forall x :: RebaseBranch(x) in Rebases(branches, local) <==>
      exists b <- branches :: LeafName(b) == x && HasLocal(x, local)
    ensures forall op <- Rebases(branches, local) :: op.RebaseBranch? || (op.Checkout? && op.force)
  {
    if branches != [] {
      var front := branches[..|branches| - 1];
      var last := branches[|branches| - 1];
      var a := Rebases(front, local);
      var g := LeafOps(LeafName(last), local);
      RebasedLeaves(front, local);
      assert Rebases(branches, local) == a + g;
      assert forall b <- branches :: b in front || b == last;
      assert forall b <- front :: b in branches;
      assert forall op <- a + g :: op in a || op in g;
    }
  }

  /** The plan opens with the fetch. */
  lemma FetchFirst(remote: seq<string>, tags: seq<string>, local: seq<string>)
    ensures Plan(remote, tags, local)[0] == Fetch
    ensures Fetch !in Rebases(Candidates(remote, tags), local)
  {
    RebasedLeaves(Candidates(remote, tags), local);
  }

  /** The two fixers split the SVN branches between them: no leaf the rebase
      fixer rebases is touched by the legacy fixer, whatever git answers. */
  lemma FixersDisjoint(branches: seq<string>, local: seq<string>, output: Op -> string, x: string)
    requires RebaseBranch(x) in Rebases(branches, local)
    ensures forall op <- LegacyBranchFixer.Fix(branches, local, output) :: !LegacyBranchFixer.Concerns(op, x)
  {
    RebasedLeaves(branches, local);
    LegacyBranchFixer.EveryBranchHandled(branches, local, output);
  }
}
