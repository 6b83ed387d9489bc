/** LegacyBranchFixer.cs: gives every SVN branch without a local branch one,
    tracking the remote branch while git allows it and falling back to a
    plain branch from the remote once git refuses to set up tracking. */
module LegacyBranchFixer {
  import opened Wrappers
  import opened Seqs
  import opened Text
  import opened GitOps
  import opened Gateway
  import opened SharedState
  import opened SvnBranches

  /** The rule of asterisks around the deprecation warning. */
  const Rule: string := "********************************************************************"

  /** The deprecation warning, shown before the first tracking checkout. */
  const WarningMessage: string :=
    Rule + "\n"
    + "svn2git warning: Tracking remote SVN branches is deprecated.\n"
    + "In a future release local branches will be created without tracking.\n"
    + "If you must resync your branches, run: svn2git --rebase\n"
    + Rule

  /** What git answers when it cannot set up tracking information. */
  predicate Refused(status: string)
  {
    Contains(status, "Cannot setup tracking information")
  }

  /** The two flags the loop carries: tracking has been refused once, and the
      warning has been shown. */
  datatype Tracking = Tracking(cannotTrack: bool, warned: bool)

  /** The requests made for one leaf in state `st`; `output` is what each
      request's command prints. */
  function LeafOps(leaf: string, local: seq<string>, output: Op -> string, st: Tracking): seq<Op>
  {
    if HasLocal(leaf, local) then []
    else if st.cannotTrack then [CheckoutAndCreateBranchFromSvn(leaf)]
    else if Refused(output(GetBranchTrackInfo(leaf))) then [GetBranchTrackInfo(leaf), CheckoutAndCreateBranchFromSvn(leaf)]
    else [GetBranchTrackInfo(leaf)] + TrackingCheckout(leaf, st.warned)
  }

  /** A checkout that tracks the remote branch, after the warning unless it
      was shown already. */
  function TrackingCheckout(leaf: string, warned: bool): seq<Op>
  {
    (if warned then [] else [WriteLine(WarningMessage)]) + [Checkout(leaf, false)]
  }

  /** The state after one leaf. */
  function LeafState(leaf: string, local: seq<string>, output: Op -> string, st: Tracking): Tracking
  {
    if HasLocal(leaf, local) || st.cannotTrack then st
    else if Refused(output(GetBranchTrackInfo(leaf))) then st.(cannotTrack := true)
    else st.(warned := true)
  }

  /** The state after a run of candidate branches, from the initial one. */
  function StateAfter(branches: seq<string>, local: seq<string>, output: Op -> string): Tracking
  {
    if branches == [] then Tracking(false, false)
    else LeafState(LeafName(branches[|branches| - 1]), local, output, StateAfter(branches[..|branches| - 1], local, output))
  }

  /** The requests made for a run of candidate branches, in order. */
  function Fix(branches: seq<string>, local: seq<string>, output: Op -> string): seq<Op>
  {
    if branches == [] then []
    else
      var front := branches[..|branches| - 1];
      Fix(front, local, output) + LeafOps(LeafName(branches[|branches| - 1]), local, output, StateAfter(front, local, output))
  }

  /** The requests `Run` makes for the shared data. */
  function Plan(remote: seq<string>, tags: seq<string>, local: seq<string>, output: Op -> string): seq<Op>
  {
    Fix(Candidates(remote, tags), local, output)
  }

  lemma {:induction false} FixPrefix(branches: seq<string>, i: nat, local: seq<string>, output: Op -> string)
    requires i <= |branches|
    ensures Fix(branches[..i], local, output) <= Fix(branches, local, output)
    decreases |branches|
  {
    if i < |branches| {
      var front := branches[..|branches| - 1];
      assert front[..i] == branches[..i];
      FixPrefix(front, i, local, output);
    } else {
      assert branches[..i] == branches;
    }
  }

  /** One more candidate: its requests follow those of the ones before it. */
  lemma FixSnoc(branches: seq<string>, i: nat, local: seq<string>, output: Op -> string)
    requires i < |branches|
    ensures Fix(branches[..i + 1], local, output) ==
      Fix(branches[..i], local, output) + LeafOps(LeafName(branches[i]), local, output, StateAfter(branches[..i], local, output))
    ensures StateAfter(branches[..i + 1], local, output) ==
      LeafState(LeafName(branches[i]), local, output, StateAfter(branches[..i], local, output))
  {
    assert branches[..i + 1][..i] == branches[..i];
  }

  /** What one pass of `Run`'s loop leaves: after a throwing leaf the run
      has issued and reported what the whole plan issues and reports; after
      a passing one, the requests of one more candidate. */
  lemma FixStep(branches: seq<string>, i: nat, local: seq<string>, output: Op -> string, fails: Op -> bool,
                start: seq<Op>, trace: seq<Op>)
    requires i < |branches|
    requires Verdict(Fix(branches[..i], local, output), fails) == Pass
    requires var g := LeafOps(LeafName(branches[i]), local, output, StateAfter(branches[..i], local, output));
      trace == start + Fix(branches[..i], local, output) + Issued(g, fails)
    ensures var g := LeafOps(LeafName(branches[i]), local, output, StateAfter(branches[..i], local, output));
      && (Verdict(g, fails).Fail? ==>
            trace == start + Issued(Fix(branches, local, output), fails)
            && Verdict(Fix(branches, local, output), fails) == Verdict(g, fails))
      && (Verdict(g, fails) == Pass ==>
            trace == start + Fix(branches[..i + 1], local, output)
            && Fix(branches[..i + 1], local, output) == Fix(branches[..i], local, output) + g
            && Verdict(Fix(branches[..i + 1], local, output), fails) == Pass)
      && StateAfter(branches[..i + 1], local, output) == LeafState(LeafName(branches[i]), local, output, StateAfter(branches[..i], local, output))
  {
    FixSnoc(branches, i, local, output);
    FixPrefix(branches, i + 1, local, output);
    var g := LeafOps(LeafName(branches[i]), local, output, StateAfter(branches[..i], local, output));
    TraceAfterGroup(start, Fix(branches[..i], local, output), g, Fix(branches, local, output), fails, trace);
  }

  /** One pass of the loop body. */
  method FixBranch(git: GitGateway, leaf: string, local: seq<string>, st: Tracking) returns (res: Outcome<Error>, next: Tracking)
    requires git.Valid()
    modifies git
    ensures old(git.probes) <= git.probes
    ensures git.Valid()
    ensures git.committerDate == old(git.committerDate)
    ensures git.Trace == old(git.Trace) + Issued(LeafOps(leaf, local, git.output, st), git.fails)
    ensures res == Verdict(LeafOps(leaf, local, git.output, st), git.fails)
    ensures next == LeafState(leaf, local, git.output, st)
  {
    next := st;
    if HasLocal(leaf, local) {
      return Pass, next;
    }
    if st.cannotTrack {
      res := git.Call(CheckoutAndCreateBranchFromSvn(leaf));
      return res, next;
    }
    var status := git.GetBranchTrackInfo(leaf);
    if Refused(status) {
      next := st.(cannotTrack := true);
      res := git.Call(CheckoutAndCreateBranchFromSvn(leaf));
      IssuedAppendPass([GetBranchTrackInfo(leaf)], [CheckoutAndCreateBranchFromSvn(leaf)], git.fails);
      AppendAssoc(old(git.Trace), [GetBranchTrackInfo(leaf)], [CheckoutAndCreateBranchFromSvn(leaf)]);
      return res, next;
    }
    next := st.(warned := true);
    res := CheckoutTracking(git, leaf, st.warned);
    IssuedAppendPass([GetBranchTrackInfo(leaf)], TrackingCheckout(leaf, st.warned), git.fails);
    AppendAssoc(old(git.Trace), [GetBranchTrackInfo(leaf)], Issued(TrackingCheckout(leaf, st.warned), git.fails));
  }

  method CheckoutTracking(git: GitGateway, leaf: string, warned: bool) returns (res: Outcome<Error>)
    requires git.Valid()
    modifies git
    ensures old(git.probes) <= git.probes
    ensures git.Valid()
    ensures git.committerDate == old(git.committerDate)
    ensures git.Trace == old(git.Trace) + Issued(TrackingCheckout(leaf, warned), git.fails)
    ensures res == Verdict(TrackingCheckout(leaf, warned), git.fails)
  {
    if !warned {
      var shown := git.Call(WriteLine(WarningMessage));
    }
    res := git.Call(Checkout(leaf, false));
    IssuedAppendPass(if warned then [] else [WriteLine(WarningMessage)], [Checkout(leaf, false)], git.fails);
  }

  /** `Run`: the candidates are walked in order; the first request that
      throws ends the step. */
  method Run(data: SharedData, git: GitGateway) returns (res: Outcome<Error>)
    requires git.Valid()
    modifies git
    ensures old(git.probes) <= git.probes
    ensures git.Valid()
    ensures git.committerDate == old(git.committerDate)
    ensures git.Trace == old(git.Trace) + Issued(Plan(data.remoteBranches, data.tags, data.localBranches, git.output), git.fails)
    ensures res == Verdict(Plan(data.remoteBranches, data.tags, data.localBranches, git.output), git.fails)
  {
    var branches := Candidates(data.remoteBranches, data.tags);
    var local := data.localBranches;
    ghost var plan := Fix(branches, local, git.output);
    var st := Tracking(false, false);
    ghost var done: seq<Op> := [];
    var i := 0;
    while i < |branches|
      invariant 0 <= i <= |branches|
      invariant git.Valid()
      invariant old(git.probes) <= git.probes
      invariant git.committerDate == old(git.committerDate)
      invariant done == Fix(branches[..i], local, git.output)
      invariant st == StateAfter(branches[..i], local, git.output)
      invariant git.Trace == old(git.Trace) + done
      invariant Verdict(done, git.fails) == Pass
    {
      ghost var g := LeafOps(LeafName(branches[i]), local, git.output, st);
      var r;
      r, st := FixBranch(git, LeafName(branches[i]), local, st);
      FixStep(branches, i, local, git.output, git.fails, old(git.Trace), git.Trace);
      if r.Fail? {
        return r;
      }
      done := done + g;
      i := i + 1;
    }
    assert branches[..i] == branches;
    VerdictPass(plan, git.fails);
    res := Pass;
  }

  /** Which requests a run makes, in terms of its outcome so far. */
  lemma {:induction false} LeafWarning(leaf: string, local: seq<string>, output: Op -> string, st: Tracking)
    ensures Count(LeafOps(leaf, local, output, st), WriteLine(WarningMessage)) ==
      if !st.warned && LeafState(leaf, local, output, st).warned then 1 else 0
    ensures st.warned ==> LeafState(leaf, local, output, st).warned
  {
    var ops := LeafOps(leaf, local, output, st);
    if !HasLocal(leaf, local) && !st.cannotTrack && !Refused(output(GetBranchTrackInfo(leaf))) {
      var shown: seq<Op> := if st.warned then [] else [WriteLine(WarningMessage)];
      CountAppend(shown, [Checkout(leaf, false)], WriteLine(WarningMessage));
      CountAppend([GetBranchTrackInfo(leaf)], TrackingCheckout(leaf, st.warned), WriteLine(WarningMessage));
    } else if !HasLocal(leaf, local) && !st.cannotTrack {
      CountAppend([GetBranchTrackInfo(leaf)], [CheckoutAndCreateBranchFromSvn(leaf)], WriteLine(WarningMessage));
    }
  }

  /** The warning is shown at most once: exactly once when some leaf was
      checked out with tracking, never otherwise. */
  lemma {:induction false} WarningShownOnce(branches: seq<string>, local: seq<string>, output: Op -> string)
    ensures Count(Fix(branches, local, output), WriteLine(WarningMessage)) ==
      if StateAfter(branches, local, output).warned then 1 else 0
  {
    if branches != [] {
      var front := branches[..|branches| - 1];
      var leaf := LeafName(branches[|branches| - 1]);
      var st := StateAfter(front, local, output);
      WarningShownOnce(front, local, output);
      LeafWarning(leaf, local, output, st);
      CountAppend(Fix(front, local, output), LeafOps(leaf, local, output, st), WriteLine(WarningMessage));
    }
  }

  /** A tracking probe git refused. */
  predicate RefusedProbe(op: Op, output: Op -> string)
  {
    op.GetBranchTrackInfo? && Refused(output(op))
  }

  /** Within one leaf: a probe comes first if at all, none is made once
      tracking was refused, and the state records a refused probe. */
  lemma LeafProbes(leaf: string, local: seq<string>, output: Op -> string, st: Tracking)
    ensures var g := LeafOps(leaf, local, output, st);
      forall k :: 0 < k < |g| ==> !g[k].GetBranchTrackInfo?
    ensures st.cannotTrack ==> forall op <- LeafOps(leaf, local, output, st) :: !op.GetBranchTrackInfo?
    ensures LeafState(leaf, local, output, st).cannotTrack <==>
      st.cannotTrack || exists op <- LeafOps(leaf, local, output, st) :: RefusedProbe(op, output)
  {
    var g := LeafOps(leaf, local, output, st);
    if !HasLocal(leaf, local) && !st.cannotTrack && Refused(output(GetBranchTrackInfo(leaf))) {
      assert RefusedProbe(g[0], output);
    }
  }

  /** The loop remembers a refusal exactly when one of its probes was refused. */
  lemma {:induction false} RefusalRemembered(branches: seq<string>, local: seq<string>, output: Op -> string)
    ensures StateAfter(branches, local, output).cannotTrack <==>
      exists op <- Fix(branches, local, output) :: RefusedProbe(op, output)
  {
    if branches != [] {
      var front := branches[..|branches| - 1];
      var leaf := LeafName(branches[|branches| - 1]);
      var st := StateAfter(front, local, output);
      var a := Fix(front, local, output);
      var g := LeafOps(leaf, local, output, st);
      RefusalRemembered(front, local, output);
      LeafProbes(leaf, local, output, st);
      assert Fix(branches, local, output) == a + g;
      assert forall op <- a + g :: op in a || op in g;
    }
  }

  /** The fallback is sticky: once a probe was refused, no further probe is made. */
  lemma {:induction false} FallbackSticky(branches: seq<string>, local: seq<string>, output: Op -> string)
    ensures var p := Fix(branches, local, output);
      forall i, j :: 0 <= i < j < |p| && RefusedProbe(p[i], output) ==> !p[j].GetBranchTrackInfo?
  {
    if branches != [] {
      var front := branches[..|branches| - 1];
      var leaf := LeafName(branches[|branches| - 1]);
      var st := StateAfter(front, local, output);
      var a := Fix(front, local, output);
      var g := LeafOps(leaf, local, output, st);
      var p := a + g;
      FallbackSticky(front, local, output);
      RefusalRemembered(front, local, output);
      LeafProbes(leaf, local, output, st);
      assert Fix(branches, local, output) == p;
      forall i, j | 0 <= i < j < |p| && RefusedProbe(p[i], output)
        ensures !p[j].GetBranchTrackInfo?
      {
        if j < |a| {
          assert p[i] == a[i] && p[j] == a[j];
        } else if i < |a| {
          assert p[i] == a[i] && a[i] in a;
          assert p[j] == g[j - |a|] && g[j - |a|] in g;
        } else {
          assert p[i] == g[i - |a|] && p[j] == g[j - |a|];
        }
      }
    }
  }

  /** A request of the fixer that concerns `leaf`. */
  predicate Concerns(op: Op, leaf: string)
  {
    (op.GetBranchTrackInfo? || op.Checkout? || op.CheckoutAndCreateBranchFromSvn?) && op.branch == leaf
  }

  lemma LeafHandled(leaf: string, local: seq<string>, output: Op -> string, st: Tracking)
    ensures !HasLocal(leaf, local) ==>
      Checkout(leaf, false) in LeafOps(leaf, local, output, st)
      || CheckoutAndCreateBranchFromSvn(leaf) in LeafOps(leaf, local, output, st)
    ensures forall op <- LeafOps(leaf, local, output, st) :: op.WriteLine? || (Concerns(op, leaf) && !HasLocal(leaf, local))
  {
  }

  /** Every candidate whose leaf has no local branch (and is not `trunk`)
      gets one, through a tracking checkout or a branch from the remote;
      every request concerns such a leaf, apart from the warning. */
  lemma {:induction false} EveryBranchHandled(branches: seq<string>, local: seq<string>, output: Op -> string)
    ensures forall b <- branches :: !HasLocal(LeafName(b), local) ==>
      Checkout(LeafName(b), false) in Fix(branches, local, output)
      || CheckoutAndCreateBranchFromSvn(LeafName(b)) in Fix(branches, local, output)
    ensures forall op <- Fix(branches, local, output) ::
      op.WriteLine? || exists b <- branches :: Concerns(op, LeafName(b)) && !HasLocal(LeafName(b), local)
  {
    if branches != [] {
      var front := branches[..|branches| - 1];
      var last := branches[|branches| - 1];
      var st := StateAfter(front, local, output);
      var a := Fix(front, local, output);
      var g := LeafOps(LeafName(last), local, output, st);
      EveryBranchHandled(front, local, output);
      LeafHandled(LeafName(last), local, output, st);
      assert Fix(branches, local, output) == a + g;
      assert forall b <- branches :: b in front || b == last;
      assert forall b <- front :: b in branches;
    }
  }
}
