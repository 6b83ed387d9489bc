/** Program.cs: parse the arguments, stop early when there is nothing to
    do, run the authors mode on its own, or build the list of migration
    steps for the mode, verify the start-up conditions, and run the steps
    in order until one throws. The exit code is 0 on success, 1 when
    anything throws. */
module Program {
  import opened Wrappers
  import opened Seqs
  import opened GitOps
  import opened Gateway
  import opened Options
  import opened SharedState
  import ArgumentParser
  import StartupVerification
  import CreateAuthorsFile
  import GetBranchesStep
  import GetRebaseBranchStep
  import LegacyBranchFixer
  import RebaseBranchFixer
  import TagFixer
  import TrunkFixer
  import ConvertSvnTags
  import SvnCloner

  /** The migration steps Program.cs constructs. */
  datatype Step =
    | InstallationCheck | Clone | GetBranches | GetRebaseBranch | LegacyBranchFix | RebaseBranchFix
    | TagFix | TrunkFix | TrunkFixRebase | ConvertTags | Optimize

  /** The steps run in each mode: rebase wins over a rebase branch, and a
      plain conversion only converts the tags and fixes the trunk. */
  function Pipeline(commands: MigrationCommands): seq<Step>
  {
    [InstallationCheck]
    + (if commands.rebase then [GetBranches, RebaseBranchFix, TagFix, TrunkFixRebase]
       else if commands.rebaseBranch then [GetBranches, GetRebaseBranch, LegacyBranchFix, TagFix, TrunkFix]
       else [ConvertTags, TrunkFix])
    + [Optimize]
  }

  /** The `migrationSteps.Add` calls. */
  method BuildPipeline(commands: MigrationCommands) returns (steps: seq<Step>)
    ensures steps == Pipeline(commands)
  {
    steps := [InstallationCheck];
    if commands.rebase {
      steps := steps + [GetBranches];
      steps := steps + [RebaseBranchFix];
      steps := steps + [TagFix];
      steps := steps + [TrunkFixRebase];
    } else if commands.rebaseBranch {
      steps := steps + [GetBranches];
      steps := steps + [GetRebaseBranch];
      steps := steps + [LegacyBranchFix];
      steps := steps + [TagFix];
      steps := steps + [TrunkFix];
    } else {
      steps := steps + [ConvertTags];
      steps := steps + [TrunkFix];
    }
    steps := steps + [Optimize];
  }

  const GitVersion: string := "git --version"
  const SvnVersion: string := "svn --version --quiet"
  const NotInstalled: string := "Git and/or SVN are not installed or not functioning properly."

  /** The two version probes of GitSvnInstallationChecker.cs. */
  function Probes(): seq<Op>
  {
    [RunProcess(GitVersion), RunProcess(SvnVersion)]
  }

  /** How the installation check ends: a probe that fails throws, and so
      does an empty version. */
  function InstallationOutcome(output: Op -> string, fails: Op -> bool): Outcome<Error>
  {
    if Verdict(Probes(), fails).Fail? then Verdict(Probes(), fails)
    else if output(RunProcess(GitVersion)) == "" || output(RunProcess(SvnVersion)) == "" then Fail(Exception(NotInstalled))
    else Pass
  }

  /** GitSvnInstallationChecker.cs `Run`. */
  method CheckInstallation(git: GitGateway) returns (res: Outcome<Error>)
    requires git.Valid()
    modifies git
    ensures old(git.probes) <= git.probes
    ensures git.Valid()
    ensures git.committerDate == old(git.committerDate)
    ensures git.Trace == old(git.Trace) + Issued(Probes(), git.fails)
    ensures res == InstallationOutcome(git.output, git.fails)
  {
    OutcomeOfTwo(RunProcess(GitVersion), RunProcess(SvnVersion), git.fails);
    var gitVersion := git.Perform(RunProcess(GitVersion));
    if gitVersion.Failure? {
      return Fail(gitVersion.error);
    }
    var svnVersion := git.Perform(RunProcess(SvnVersion));
    AppendAssoc(old(git.Trace), [RunProcess(GitVersion)], [RunProcess(SvnVersion)]);
    if svnVersion.Failure? {
      return Fail(svnVersion.error);
    }
    if gitVersion.value == "" || svnVersion.value == "" {
      return Fail(Exception(NotInstalled));
    }
    res := Pass;
  }

  /** What running one step does: the requests it issues, how it ends, the
      shared data it hands on and the GIT_COMMITTER_DATE it leaves. */
  datatype Effect = Effect(requests: seq<Op>, outcome: Outcome<Error>, data: Shared, date: Option<string>)

  /** `step.Run(sharedData)` started on shared data `d` with
      GIT_COMMITTER_DATE holding `date`, each step as its own `Run` states
      it. Only the two branch-list steps change the data and only the tag
      fixer leaves a different date. The rebase mode's trunk step checks
      out `master` and the optimizer runs `git gc`. */
  function StepEffect(step: Step, d: Shared, date: Option<string>, output: Op -> string, fails: Op -> bool): Effect
  {
    match step
    case InstallationCheck => Effect(Issued(Probes(), fails), InstallationOutcome(output, fails), d, date)
    case Clone => Effect(Issued(SvnCloner.Plan(d.options), fails), Verdict(SvnCloner.Plan(d.options), fails), d, date)
    case GetBranches =>
      Effect(Issued(GetBranchesStep.Plan, fails), Verdict(GetBranchesStep.Plan, fails), GetBranchesStep.After(d, output, fails), date)
    case GetRebaseBranch =>
      Effect([], GetRebaseBranchStep.Decision(d.localBranches, d.remoteBranches, d.options.rebaseBranch), GetRebaseBranchStep.Narrowed(d), date)
    case LegacyBranchFix =>
      var plan := LegacyBranchFixer.Plan(d.remoteBranches, d.tags, d.localBranches, output);
      Effect(Issued(plan, fails), Verdict(plan, fails), d, date)
    case RebaseBranchFix =>
      var plan := RebaseBranchFixer.Plan(d.remoteBranches, d.tags, d.localBranches);
      Effect(Issued(plan, fails), Verdict(plan, fails), d, date)
    case TagFix =>
      Effect(TagFixer.Requests(d.tags, output, fails, date), TagFixer.Ending(d.tags, output, fails, date), d,
             TagFixer.DateLeft(Verdict(TagFixer.Retag(d.tags, output, date), fails), output, date))
    case TrunkFix => Effect(Issued(TrunkFixer.Plan(d.remoteBranches), fails), Verdict(TrunkFixer.Plan(d.remoteBranches), fails), d, date)
    case TrunkFixRebase => Effect(Issued([Checkout("master", true)], fails), Verdict([Checkout("master", true)], fails), d, date)
    case ConvertTags => Effect(Issued(ConvertSvnTags.Plan(output), fails), Verdict(ConvertSvnTags.Plan(output), fails), d, date)
    case Optimize => Effect(Issued([GarbageCollect], fails), Verdict([GarbageCollect], fails), d, date)
  }

  /** The `foreach` over `steps`: each step starts from the data and date
      the previous one left, and the first one that throws ends the run.
      The effect gathers every request issued, the outcome of the last step
      started, and the data and date left. */
  function RunAll(steps: seq<Step>, d: Shared, date: Option<string>, output: Op -> string, fails: Op -> bool): Effect
  {
    if steps == [] then Effect([], Pass, d, date)
    else
      var before := RunAll(steps[..|steps| - 1], d, date, output, fails);
      if before.outcome.Fail? then before
      else
        var e := StepEffect(steps[|steps| - 1], before.data, before.date, output, fails);
        Effect(before.requests + e.requests, e.outcome, e.data, e.date)
  }

  /** `step.Run(sharedData)`. */
  method RunStep(step: Step, data: SharedData, git: GitGateway) returns (res: Outcome<Error>)
    requires git.Valid()
    modifies data, git
    ensures old(git.probes) <= git.probes
    ensures git.Valid()
    ensures var e := StepEffect(step, old(data.Value()), old(git.committerDate), git.output, git.fails);
      git.Trace == old(git.Trace) + e.requests && res == e.outcome && data.Value() == e.data && git.committerDate == e.date
  {
    match step
    case InstallationCheck => res := CheckInstallation(git);
    case Clone => res := SvnCloner.Run(data.options, git);
    case GetBranches => res := GetBranchesStep.Run(data, git);
    case GetRebaseBranch => res := GetRebaseBranchStep.Run(data);
    case LegacyBranchFix => res := LegacyBranchFixer.Run(data, git);
    case RebaseBranchFix => res := RebaseBranchFixer.Run(data, git);
    case TagFix => res := TagFixer.Run(data, git);
    case TrunkFix => res := TrunkFixer.Run(data, git);
    case TrunkFixRebase => res := git.Call(Checkout("master", true));
    case ConvertTags => res := ConvertSvnTags.Run(git);
    case Optimize => res := git.Call(GarbageCollect);
  }

  /** The `foreach` over the steps, stated by `RunAll`. */
  method RunSteps(steps: seq<Step>, data: SharedData, git: GitGateway) returns (res: Outcome<Error>)
    requires git.Valid()
    modifies data, git
    ensures old(git.probes) <= git.probes
    ensures git.Valid()
    ensures var e := RunAll(steps, old(data.Value()), old(git.committerDate), git.output, git.fails);
      git.Trace == old(git.Trace) + e.requests && res == e.outcome && data.Value() == e.data && git.committerDate == e.date
  {
    ghost var d, date := data.Value(), git.committerDate;
    var i := 0;
    while i < |steps|
      invariant 0 <= i <= |steps|
      invariant git.Valid()
      invariant old(git.probes) <= git.probes
      invariant var e := RunAll(steps[..i], d, date, git.output, git.fails);
        git.Trace == old(git.Trace) + e.requests && e.outcome == Pass && data.Value() == e.data && git.committerDate == e.date
    {
      ghost var before := RunAll(steps[..i], d, date, git.output, git.fails);
      ghost var t := git.Trace;
      var r := RunStep(steps[i], data, git);
      ghost var e := StepEffect(steps[i], before.data, before.date, git.output, git.fails);
      assert steps[..i + 1][..i] == steps[..i];
      assert RunAll(steps[..i + 1], d, date, git.output, git.fails) == Effect(before.requests + e.requests, e.outcome, e.data, e.date);
      AppendAssoc(old(git.Trace), before.requests, e.requests);
      if r.Fail? {
        ThrowEndsRun(steps, i + 1, d, date, git.output, git.fails);
        return r;
      }
      i := i + 1;
    }
    assert steps[..i] == steps;
    res := Pass;
  }

  /** `Main`. Whether `authors.txt` exists, the application directory and
      the parser's help text are inputs; the gateway stands for the git
      service, the process runner and the console of the run. */
  method Execute(args: seq<string>, authorsFileExists: bool, baseDirectory: string, helpMessage: string, git: GitGateway)
    returns (code: int)
    requires git.Valid()
    modifies git
    ensures old(git.probes) <= git.probes
    ensures git.Valid()
    ensures code == 0 || code == 1
    ensures var parsed := ArgumentParser.ParseSpec(args, authorsFileExists, baseDirectory);
      parsed.Failure? ==> code == 1 && git.Trace == old(git.Trace)
    ensures var parsed := ArgumentParser.ParseSpec(args, authorsFileExists, baseDirectory);
      parsed.Success? && ArgumentParser.ShouldExitEarly(parsed.value.options, parsed.value.commands) ==>
        code == 0 && git.Trace == old(git.Trace)
    ensures var parsed := ArgumentParser.ParseSpec(args, authorsFileExists, baseDirectory);
      parsed.Success? && !ArgumentParser.ShouldExitEarly(parsed.value.options, parsed.value.commands)
      && parsed.value.commands.createAuthorsFile ==>
        var o := parsed.value.options;
        git.Trace == old(git.Trace) + CreateAuthorsFile.Requests(o, baseDirectory, git.output, git.fails)
        && (code == 0 <==> CreateAuthorsFile.Ending(o, baseDirectory, git.output, git.fails) == Pass)
    ensures var parsed := ArgumentParser.ParseSpec(args, authorsFileExists, baseDirectory);
      parsed.Success? && !ArgumentParser.ShouldExitEarly(parsed.value.options, parsed.value.commands)
      && !parsed.value.commands.createAuthorsFile ==>
        var o := parsed.value.options;
        var c := parsed.value.commands;
        var checks := StartupVerification.CheckRequests(c, o, |args|, helpMessage);
        var run := RunAll(Pipeline(c), Shared(o, [], [], []), old(git.committerDate), git.output, git.fails);
        if StartupVerification.CheckEnding(c, o, |args|, git.output, git.fails).Fail? then
          code == 1 && git.Trace == old(git.Trace) + checks
        else
          git.Trace == old(git.Trace) + checks + run.requests && (code == 0 <==> run.outcome == Pass)
  {
    var parsed := ArgumentParser.Parse(args, authorsFileExists, baseDirectory);
    if parsed.Failure? {
      return 1;
    }
    var options := parsed.value.options;
    var commands := parsed.value.commands;
    if ArgumentParser.ShouldExitEarly(options, commands) {
      return 0;
    }
    var data := new SharedData(options);
    if commands.createAuthorsFile {
      var r := CreateAuthorsFile.Run(options, baseDirectory, git);
      code := if r.Fail? then 1 else 0;
      return;
    }
    var steps := BuildPipeline(commands);
    var checked := StartupVerification.Check(git, commands, options, args, helpMessage);
    if checked.Fail? {
      return 1;
    }
    var res := RunSteps(steps, data, git);
    code := if res.Fail? then 1 else 0;
  }

  /** Once a prefix of the steps has thrown, the later steps change
      nothing: the run is that prefix's run. */
  lemma {:induction false} ThrowEndsRun(steps: seq<Step>, k: nat, d: Shared, date: Option<string>, output: Op -> string, fails: Op -> bool)
    requires k <= |steps|
    requires RunAll(steps[..k], d, date, output, fails).outcome.Fail?
    ensures RunAll(steps, d, date, output, fails) == RunAll(steps[..k], d, date, output, fails)
  {
    if k < |steps| {
      var front := steps[..|steps| - 1];
      assert front[..k] == steps[..k];
      ThrowEndsRun(front, k, d, date, output, fails);
    } else {
      assert steps[..k] == steps;
    }
  }

  /** The requests of a prefix of the steps open the requests of the run. */
  lemma {:induction false} RunAllPrefix(steps: seq<Step>, k: nat, d: Shared, date: Option<string>, output: Op -> string, fails: Op -> bool)
    requires k <= |steps|
    ensures RunAll(steps[..k], d, date, output, fails).requests <= RunAll(steps, d, date, output, fails).requests
  {
    if k < |steps| {
      var front := steps[..|steps| - 1];
      assert front[..k] == steps[..k];
      RunAllPrefix(front, k, d, date, output, fails);
    } else {
      assert steps[..k] == steps;
    }
  }

  /** A run that ends normally ran every step, each from the data and date
      its predecessors left, and each ended normally. */
  lemma {:induction false} PassedRunRanEveryStep(steps: seq<Step>, d: Shared, date: Option<string>, output: Op -> string, fails: Op -> bool)
    requires RunAll(steps, d, date, output, fails).outcome == Pass
    ensures forall k :: 0 <= k < |steps| ==>
      var before := RunAll(steps[..k], d, date, output, fails);
      before.outcome == Pass && StepEffect(steps[k], before.data, before.date, output, fails).outcome == Pass
  {
    if steps != [] {
      var front := steps[..|steps| - 1];
      var before := RunAll(front, d, date, output, fails);
      assert before.outcome == Pass;
      PassedRunRanEveryStep(front, d, date, output, fails);
      forall k | 0 <= k < |steps|
        ensures var b := RunAll(steps[..k], d, date, output, fails);
          b.outcome == Pass && StepEffect(steps[k], b.data, b.date, output, fails).outcome == Pass
      {
        if k < |steps| - 1 {
          assert steps[..k] == front[..k];
        } else {
          assert steps[..k] == front;
        }
      }
    }
  }

  /** The run of `steps` stops at step `k`: the steps before it ended
      normally, it threw, and the run is what they issued and left. */
  ghost predicate StopsAt(steps: seq<Step>, k: nat, d: Shared, date: Option<string>, output: Op -> string, fails: Op -> bool)
    requires k < |steps|
  {
    var before := RunAll(steps[..k], d, date, output, fails);
    var e := StepEffect(steps[k], before.data, before.date, output, fails);
    before.outcome == Pass && e.outcome.Fail?
    && RunAll(steps, d, date, output, fails) == Effect(before.requests + e.requests, e.outcome, e.data, e.date)
  }

  /** A run that throws stopped at a step that threw after all steps before
      it ended normally; that step's exception is the run's, and nothing
      was issued after its requests. */
  lemma {:induction false} FailedRunStopsAtThrow(steps: seq<Step>, d: Shared, date: Option<string>, output: Op -> string, fails: Op -> bool)
    requires RunAll(steps, d, date, output, fails).outcome.Fail?
    ensures exists k :: 0 <= k < |steps| && StopsAt(steps, k, d, date, output, fails)
  {
    var front := steps[..|steps| - 1];
    var before := RunAll(front, d, date, output, fails);
    if before.outcome.Fail? {
      FailedRunStopsAtThrow(front, d, date, output, fails);
      var k :| 0 <= k < |front| && StopsAt(front, k, d, date, output, fails);
      assert steps[..k] == front[..k];
      assert StopsAt(steps, k, d, date, output, fails);
    } else {
      assert StopsAt(steps, |steps| - 1, d, date, output, fails);
    }
  }

  /** Every pipeline opens with the installation check and closes with the
      optimizer, and runs neither anywhere else. */
  lemma PipelineEnds(commands: MigrationCommands)
    ensures var p := Pipeline(commands);
      p[0] == InstallationCheck && p[|p| - 1] == Optimize
      && InstallationCheck !in p[1..] && Optimize !in p[..|p| - 1]
  {
  }

  /** Rebase mode takes precedence over a rebase branch. */
  lemma RebaseTakesPrecedence(commands: MigrationCommands, flag: bool)
    requires commands.rebase
    ensures Pipeline(commands.(rebaseBranch := flag)) == Pipeline(commands)
    ensures GetRebaseBranch !in Pipeline(commands) && LegacyBranchFix !in Pipeline(commands)
  {
  }

  /** No pipeline clones. A plain conversion never lists the branches, so
      the trunk fixer sees the empty remote list the shared data starts
      with and only checks out `master`. */
  lemma ConversionKeepsMaster(commands: MigrationCommands)
    requires !commands.rebase && !commands.rebaseBranch
    ensures Clone !in Pipeline(commands) && GetBranches !in Pipeline(commands)
    ensures Pipeline(commands) == [InstallationCheck, ConvertTags, TrunkFix, Optimize]
    ensures TrunkFixer.Plan([]) == [Checkout("master", true)]
  {
  }

  /** In rebase-branch mode the tag list is cleared before the tag fixer
      runs, so the fixer only saves the identity and retags nothing. */
  lemma RebaseBranchModeRetagsNothing(c: MigrationCommands, o: MigrationOptions, date: Option<string>,
                                      output: Op -> string, fails: Op -> bool)
    requires !c.rebase && c.rebaseBranch
    ensures var p := Pipeline(c);
      var before := RunAll(p[..4], Shared(o, [], [], []), date, output, fails);
      p[4] == TagFix
      && (before.outcome == Pass ==>
            before.data.tags == [] && StepEffect(TagFix, before.data, before.date, output, fails).requests == TagFixer.SavedReads)
  {
    var p := Pipeline(c);
    var d := Shared(o, [], [], []);
    assert p[..4][..3] == p[..3] && p[..3][..2] == p[..2];
    var narrowed := RunAll(p[..3], d, date, output, fails);
    if RunAll(p[..4], d, date, output, fails).outcome == Pass {
      assert narrowed.outcome == Pass;
      assert narrowed.data.tags == [];
    }
  }
}
