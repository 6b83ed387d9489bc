/** ArgumentParser.cs: the command-line option loop and `ShouldExitEarly`. */
module ArgumentParser {
  import opened Wrappers
  import opened Seqs
  import opened Text
  import opened Options
  import GitOps

  const DefaultAuthorsFile: string := "authors.txt"

  /** What the parser writes on the console while reading options: the help
      text, or the warning about an unknown `--` option. */
  datatype Notice = HelpShown | UnknownOption(arg: string)

  /** The parser's state: the options and commands filled in so far, and
      the notices written. */
  datatype Parsed = Parsed(options: MigrationOptions, commands: MigrationCommands, notices: seq<Notice>)

  /** The case label of the `switch` that one argument selects. */
  datatype Label =
    | Rebase | CreateAuthors | Username | Trunk | Branches | Tags | RootIsTrunk | NoTrunk
    | NoBranches | NoTags | NoMinimizeUrl | Revision | Metadata | Authors | Exclude | Verbose
    | RebaseBranch | Help | UnknownLong | Ignored
  {
    /** Options that take the following argument as their value. */
    predicate TakesValue()
    {
      this in {CreateAuthors, Username, Trunk, Branches, Tags, Revision, Authors, Exclude, RebaseBranch}
    }
  }

  /** The `case` labels of the `switch`, in source order; `-m`, `-v` and
      `-h` share the cases of `--metadata`, `--verbose` and `--help`. */
  const Cases: seq<(string, Label)> := [
    ("--rebase", Rebase), ("--createauthors", CreateAuthors), ("--username", Username),
    ("--trunk", Trunk), ("--branches", Branches), ("--tags", Tags), ("--rootistrunk", RootIsTrunk),
    ("--notrunk", NoTrunk), ("--nobranches", NoBranches), ("--notags", NoTags),
    ("--no-minimize-url", NoMinimizeUrl), ("--revision", Revision), ("-m", Metadata),
    ("--metadata", Metadata), ("--authors", Authors), ("--exclude", Exclude), ("-v", Verbose),
    ("--verbose", Verbose), ("--rebasebranch", RebaseBranch), ("-h", Help), ("--help", Help)]

  /** No case of the table is the `default` one. */
  predicate NoFallback(cases: seq<(string, Label)>)
  {
    forall k :: 0 <= k < |cases| ==> cases[k].1 != UnknownLong && cases[k].1 != Ignored
  }

  /** The label of the first case whose text is `a`. */
  function Lookup(cases: seq<(string, Label)>, a: string): (r: Option<Label>)
    requires NoFallback(cases)
    ensures r.Some? ==> r.value != UnknownLong && r.value != Ignored
  {
    if cases == [] then None
    else if cases[0].0 == a then Some(cases[0].1)
    else Lookup(cases[1..], a)
  }

  /** The lookup is the `switch`: `None` exactly when no case has the text
      `a`, and otherwise the label of the first case that has it. */
  lemma {:induction false} LookupFirst(cases: seq<(string, Label)>, a: string)
    requires NoFallback(cases)
    ensures Lookup(cases, a).None? <==> forall k :: 0 <= k < |cases| ==> cases[k].0 != a
    ensures Lookup(cases, a).Some? ==>
      exists k :: 0 <= k < |cases| && cases[k] == (a, Lookup(cases, a).value)
                  && forall j :: 0 <= j < k ==> cases[j].0 != a
  {
    if cases != [] && cases[0].0 != a {
      assert NoFallback(cases[1..]) by {
        forall k | 0 <= k < |cases[1..]| ensures cases[1..][k].1 != UnknownLong && cases[1..][k].1 != Ignored {
          assert cases[1..][k] == cases[k + 1];
        }
      }
      LookupFirst(cases[1..], a);
      if Lookup(cases, a).Some? {
        var k :| 0 <= k < |cases[1..]| && cases[1..][k] == (a, Lookup(cases, a).value)
                 && forall j :: 0 <= j < k ==> cases[1..][j].0 != a;
        assert cases[k + 1] == (a, Lookup(cases, a).value);
        forall j | 0 <= j < k + 1 ensures cases[j].0 != a {
          if j > 0 { assert cases[1..][j - 1] == cases[j]; }
        }
      } else {
        forall k | 0 <= k < |cases| ensures cases[k].0 != a {
          if k > 0 { assert cases[1..][k - 1] == cases[k]; }
        }
      }
    }
  }

  /** The `case` an argument matches; any other argument starting with `--`
      reaches the `default` warning, and the rest are passed over. */
  function LabelOf(a: string): (l: Label)
    ensures l == UnknownLong ==> StartsWith(a, "--")
    ensures l == Ignored ==> !StartsWith(a, "--")
  {
    match Lookup(Cases, a)
    case Some(l) => l
    case None => if StartsWith(a, "--") then UnknownLong else Ignored
  }

  /** How far the loop index moves past an argument: a value-taking option
      skips the next argument whether or not there is one. */
  function Width(a: string): (w: nat)
    ensures w == 1 || w == 2
  {
    if LabelOf(a).TakesValue() then 2 else 1
  }

  /** One pass of the loop: the argument, its case label and the argument
      after it, if any. */
  datatype Step = Step(kind: Label, arg: string, next: Option<string>)

  /** The passes the loop makes from index `i` on: the values of
      value-taking options are skipped, never read as options. */
  function Steps(args: seq<string>, i: nat): seq<Step>
    decreases |args| - i
  {
    if i >= |args| then []
    else [Step(LabelOf(args[i]), args[i], if i + 1 < |args| then Some(args[i + 1]) else None)]
         + Steps(args, i + Width(args[i]))
  }

  /** The state before the loop: trunk `trunk`, empty branch, tag and exclude
      lists, no revision, user name or rebase branch, every flag and command
      off; the default authors file, under the application directory, when a
      file of that name exists. */
  function Initial(authorsFileExists: bool, baseDirectory: string): (p: Parsed)
    ensures p.options.trunk == Some("trunk")
    ensures p.options.branches == Some([]) && p.options.tags == Some([]) && p.options.exclude == []
    ensures p.options.revision.None? && p.options.username.None? && p.options.rebaseBranch.None?
    ensures !p.options.verbose && !p.options.metadata && !p.options.noMinimizeUrl && !p.options.rootIsTrunk
    ensures p.options.svnRepoUrl.None? && p.options.outputDirectory.None?
    ensures p.commands == MigrationCommands(false, false, false) && p.notices == []
    ensures p.options.authors.Some? <==> authorsFileExists
  {
    var o := ClassDefaults().(trunk := Some("trunk"));
    var o' := if authorsFileExists then o.(authors := Some(Combine(baseDirectory, DefaultAuthorsFile))) else o;
    Parsed(o', MigrationCommands(false, false, false), [])
  }

  /** One pass of the `switch`, for an argument `arg` with case label `l`
      and the argument `next` after it. A `--branches` or `--tags` value
      added to a list that `--rootistrunk`, `--nobranches` or `--notags` has
      set to null throws. */
  function Apply(l: Label, arg: string, next: Option<string>, p: Parsed): Result<Parsed, GitOps.Error>
  {
    var o := p.options;
    var c := p.commands;
    match l
    case Rebase => Success(p.(commands := c.(rebase := true)))
    case CreateAuthors =>
      Success(p.(commands := c.(createAuthorsFile := true), options := if next.Some? then o.(emailDomain := next.value) else o))
    case Username => Success(if next.Some? then p.(options := o.(username := next)) else p)
    case Trunk => Success(if next.Some? then p.(options := o.(trunk := next)) else p)
    case Branches =>
      if next.None? then Success(p)
      else if o.branches.None? then Failure(GitOps.NullReference)
      else Success(p.(options := o.(branches := Some(o.branches.value + [next.value]))))
    case Tags =>
      if next.None? then Success(p)
      else if o.tags.None? then Failure(GitOps.NullReference)
      else Success(p.(options := o.(tags := Some(o.tags.value + [next.value]))))
    case RootIsTrunk =>
      Success(p.(options := o.(rootIsTrunk := true, trunk := None, branches := None, tags := None)))
    case NoTrunk => Success(p.(options := o.(trunk := None)))
    case NoBranches => Success(p.(options := o.(branches := None)))
    case NoTags => Success(p.(options := o.(tags := None)))
    case NoMinimizeUrl => Success(p.(options := o.(noMinimizeUrl := true)))
    case Revision => Success(if next.Some? then p.(options := o.(revision := next)) else p)
    case Metadata => Success(p.(options := o.(metadata := true)))
    case Authors => Success(if next.Some? then p.(options := o.(authors := next)) else p)
    case Exclude => Success(if next.Some? then p.(options := o.(exclude := o.exclude + [next.value])) else p)
    case Verbose => Success(p.(options := o.(verbose := true)))
    case RebaseBranch =>
      var o' := if next.Some? then o.(rebaseBranch := next) else o;
      Success(p.(options := o', commands := c.(rebaseBranch := o'.rebaseBranch.Some?)))
    case Help => Success(p.(notices := p.notices + [HelpShown]))
    case UnknownLong => Success(p.(notices := p.notices + [UnknownOption(arg)]))
    case Ignored => Success(p)
  }

  /** The passes in order; the first exception ends the loop. */
  function Run(steps: seq<Step>, p: Parsed): Result<Parsed, GitOps.Error>
  {
    if steps == [] then Success(p)
    else
      match Apply(steps[0].kind, steps[0].arg, steps[0].next, p)
      case Failure(e) => Failure(e)
      case Success(p') => Run(steps[1..], p')
  }

  /** After the loop: the first argument is the repository URL with every
      space escaped; the second is the output directory unless it looks
      like an option. */
  function Positional(args: seq<string>, p: Parsed): Parsed
  {
    var url := if |args| > 0 then Some(ReplaceAll(args[0], " ", "\\ ")) else p.options.svnRepoUrl;
    var outputDirectory := if |args| > 1 && !StartsWith(args[1], "-") then Some(args[1]) else p.options.outputDirectory;
    p.(options := p.options.(svnRepoUrl := url, outputDirectory := outputDirectory))
  }

  /** `Parse`, the file-system calls taken as inputs. */
  function ParseSpec(args: seq<string>, authorsFileExists: bool, baseDirectory: string): Result<Parsed, GitOps.Error>
  {
    match Run(Steps(args, 0), Initial(authorsFileExists, baseDirectory))
    case Failure(e) => Failure(e)
    case Success(p) => Success(Positional(args, p))
  }

  /** The body of the `for` loop for the argument at index `i`: its `case`
      of the `switch` applied to `p`, and the index of the next argument
      to read. */
  method Pass(args: seq<string>, i: nat, p: Parsed) returns (res: Result<Parsed, GitOps.Error>, j: nat)
    requires i < |args|
    ensures res == Apply(LabelOf(args[i]), args[i], if i + 1 < |args| then Some(args[i + 1]) else None, p)
    ensures res.Success? ==> j == i + Width(args[i])
  {
    var options := p.options;
    var commands := p.commands;
    var notices := p.notices;
    var a := args[i];
    var k := i;
    match LabelOf(a) {
    case Rebase =>
      commands := commands.(rebase := true);
    case CreateAuthors =>
      commands := commands.(createAuthorsFile := true);
      if k + 1 < |args| {
        options := options.(emailDomain := args[k + 1]);
      }
      k := k + 1;
    case Username =>
      if k + 1 < |args| {
        options := options.(username := Some(args[k + 1]));
      }
      k := k + 1;
    case Trunk =>
      if k + 1 < |args| {
        options := options.(trunk := Some(args[k + 1]));
      }
      k := k + 1;
    case Branches =>
      if k + 1 < |args| {
        if options.branches.None? {
          return Failure(GitOps.NullReference), k;
        }
        options := options.(branches := Some(options.branches.value + [args[k + 1]]));
      }
      k := k + 1;
    case Tags =>
      if k + 1 < |args| {
        if options.tags.None? {
          return Failure(GitOps.NullReference), k;
        }
        options := options.(tags := Some(options.tags.value + [args[k + 1]]));
      }
      k := k + 1;
    case RootIsTrunk =>
      options := options.(rootIsTrunk := true, trunk := None, branches := None, tags := None);
    case NoTrunk =>
      options := options.(trunk := None);
    case NoBranches =>
      options := options.(branches := None);
    case NoTags =>
      options := options.(tags := None);
    case NoMinimizeUrl =>
      options := options.(noMinimizeUrl := true);
    case Revision =>
      if k + 1 < |args| {
        options := options.(revision := Some(args[k + 1]));
      }
      k := k + 1;
    case Metadata =>
      options := options.(metadata := true);
    case Authors =>
      if k + 1 < |args| {
        options := options.(authors := Some(args[k + 1]));
      }
      k := k + 1;
    case Exclude =>
      if k + 1 < |args| {
        options := options.(exclude := options.exclude + [args[k + 1]]);
      }
      k := k + 1;
    case Verbose =>
      options := options.(verbose := true);
    case RebaseBranch =>
      if k + 1 < |args| {
        options := options.(rebaseBranch := Some(args[k + 1]));
      }
      k := k + 1;
      commands := commands.(rebaseBranch := options.rebaseBranch.Some?);
    case Help =>
      notices := notices + [HelpShown];
    case UnknownLong =>
      notices := notices + [UnknownOption(a)];
    case Ignored =>
    }
    j := k + 1;
    res := Success(Parsed(options, commands, notices));
  }

  /** `Parse`: the `for` loop over the arguments, advancing the index once
      more past the value of a value-taking option. Whether `authors.txt`
      exists and the application directory are inputs; the output directory
      is not created here. */
  method Parse(args: seq<string>, authorsFileExists: bool, baseDirectory: string) returns (res: Result<Parsed, GitOps.Error>)
    ensures res == ParseSpec(args, authorsFileExists, baseDirectory)
  {
    var init := Initial(authorsFileExists, baseDirectory);
    var p := init;
    var i := 0;
    while i < |args|
      invariant i <= |args| + 1
      invariant Run(Steps(args, 0), init) == Run(Steps(args, i), p)
      decreases |args| + 1 - i
    {
      var r, j := Pass(args, i, p);
      StepsAt(args, i, p, r);
      if r.Failure? {
        return Failure(r.error);
      }
      p, i := r.value, j;
    }
    var q := AssignPositionals(args, p);
    res := Success(q);
  }

  /** The assignments after the loop. */
  method AssignPositionals(args: seq<string>, p: Parsed) returns (q: Parsed)
    ensures q == Positional(args, p)
  {
    var url := p.options.svnRepoUrl;
    if |args| > 0 {
      url := Some(ReplaceAll(args[0], " ", "\\ "));
    }
    var outputDirectory := p.options.outputDirectory;
    if |args| > 1 && !StartsWith(args[1], "-") {
      outputDirectory := Some(args[1]);
    }
    q := p.(options := p.options.(svnRepoUrl := url, outputDirectory := outputDirectory));
  }

  /** The loop state at index `i`: the pass there, then the rest. */
  lemma StepsAt(args: seq<string>, i: nat, p: Parsed, r: Result<Parsed, GitOps.Error>)
    requires i < |args|
    requires r == Apply(LabelOf(args[i]), args[i], if i + 1 < |args| then Some(args[i + 1]) else None, p)
    ensures r.Failure? ==> Run(Steps(args, i), p) == Failure(r.error)
    ensures r.Success? ==> Run(Steps(args, i), p) == Run(Steps(args, i + Width(args[i])), r.value)
  {
    var next := if i + 1 < |args| then Some(args[i + 1]) else None;
    RunStep(Step(LabelOf(args[i]), args[i], next), Steps(args, i + Width(args[i])), p);
  }

  /** One pass, then the rest. */
  lemma RunStep(s: Step, rest: seq<Step>, p: Parsed)
    ensures Apply(s.kind, s.arg, s.next, p).Failure? ==> Run([s] + rest, p) == Failure(Apply(s.kind, s.arg, s.next, p).error)
    ensures Apply(s.kind, s.arg, s.next, p).Success? ==> Run([s] + rest, p) == Run(rest, Apply(s.kind, s.arg, s.next, p).value)
  {
    assert ([s] + rest)[1..] == rest;
  }

  /** `ShouldExitEarly`: no trunk, no rebase branch, no rebase, no user name. */
  predicate ShouldExitEarly(options: MigrationOptions, commands: MigrationCommands)
  {
    IsNullOrEmpty(options.trunk) && IsNullOrEmpty(options.rebaseBranch) && !commands.rebase
    && IsNullOrEmpty(options.username)
  }

  /** A present value as a one-element list. */
  function Values(next: Option<string>): seq<string>
  {
    if next.Some? then [next.value] else []
  }

  /** The values given to the options with label `l`, in argument order. */
  function Collected(steps: seq<Step>, l: Label): seq<string>
  {
    if steps == [] then []
    else (if steps[0].kind == l then Values(steps[0].next) else []) + Collected(steps[1..], l)
  }

  /** What one pass leaves alone, case by case: the exclude list and the
      notices grow only for their own options, the trunk changes only for
      the three trunk options, and no pass sets the URL or the output
      directory. */
  lemma ApplyFrame(s: Step, p: Parsed)
    requires Apply(s.kind, s.arg, s.next, p).Success?
    ensures var q := Apply(s.kind, s.arg, s.next, p).value;
      && q.options.exclude == p.options.exclude + (if s.kind == Exclude then Values(s.next) else [])
      && q.notices == p.notices + NoticeFor(s)
      && (s.kind != Trunk && s.kind != NoTrunk && s.kind != RootIsTrunk ==> q.options.trunk == p.options.trunk)
      && q.options.svnRepoUrl == p.options.svnRepoUrl
      && q.options.outputDirectory == p.options.outputDirectory
  {
    assert p.options.exclude + [] == p.options.exclude;
    assert p.notices + [] == p.notices;
    match s.kind
    case Rebase =>
    case CreateAuthors =>
    case Username =>
    case Trunk =>
    case Branches =>
    case Tags =>
    case RootIsTrunk =>
    case NoTrunk =>
    case NoBranches =>
    case NoTags =>
    case NoMinimizeUrl =>
    case Revision =>
    case Metadata =>
    case Authors =>
    case Exclude =>
    case Verbose =>
    case RebaseBranch =>
    case Help =>
    case UnknownLong =>
    case Ignored =>
  }

  /** One pass appends the value of an `--exclude` and nothing else. */
  lemma StepExclude(s: Step, p: Parsed)
    requires Apply(s.kind, s.arg, s.next, p).Success?
    ensures Apply(s.kind, s.arg, s.next, p).value.options.exclude
         == p.options.exclude + (if s.kind == Exclude then Values(s.next) else [])
  {
    ApplyFrame(s, p);
  }

  /** `--exclude` values are appended in argument order. */
  lemma {:induction false} ExcludeCollected(steps: seq<Step>, p: Parsed)
    requires Run(steps, p).Success?
    ensures Run(steps, p).value.options.exclude == p.options.exclude + Collected(steps, Exclude)
  {
    if steps != [] {
      var s := steps[0];
      StepExclude(s, p);
      ExcludeCollected(steps[1..], Apply(s.kind, s.arg, s.next, p).value);
    }
  }

  /** One pass appends the value of a `--branches` to a branch list that it
      does not null. */
  lemma StepBranches(s: Step, p: Parsed)
    requires Apply(s.kind, s.arg, s.next, p).Success? && p.options.branches.Some?
    requires s.kind != RootIsTrunk && s.kind != NoBranches
    ensures Apply(s.kind, s.arg, s.next, p).value.options.branches
         == Some(p.options.branches.value + (if s.kind == Branches then Values(s.next) else []))
  {
    assert p.options.branches.value + [] == p.options.branches.value;
  }

  /** Unless something sets the branch list to null, `--branches` values are
      appended in argument order. */
  lemma {:induction false} BranchesCollected(steps: seq<Step>, p: Parsed)
    requires Run(steps, p).Success? && p.options.branches.Some?
    requires forall s <- steps :: s.kind != RootIsTrunk && s.kind != NoBranches
    ensures Run(steps, p).value.options.branches == Some(p.options.branches.value + Collected(steps, Branches))
  {
    var xs := p.options.branches.value;
    if steps == [] {
      assert xs + [] == xs;
    } else {
      var s := steps[0];
      StepBranches(s, p);
      BranchesCollected(steps[1..], Apply(s.kind, s.arg, s.next, p).value);
      var here := if s.kind == Branches then Values(s.next) else [];
      assert Collected(steps, Branches) == here + Collected(steps[1..], Branches);
      AppendAssoc(xs, here, Collected(steps[1..], Branches));
    }
  }

  /** One pass appends the value of a `--tags` to a tag list that it does
      not null. */
  lemma StepTags(s: Step, p: Parsed)
    requires Apply(s.kind, s.arg, s.next, p).Success? && p.options.tags.Some?
    requires s.kind != RootIsTrunk && s.kind != NoTags
    ensures Apply(s.kind, s.arg, s.next, p).value.options.tags
         == Some(p.options.tags.value + (if s.kind == Tags then Values(s.next) else []))
  {
    assert p.options.tags.value + [] == p.options.tags.value;
  }

  /** Unless something sets the tag list to null, `--tags` values are
      appended in argument order. */
  lemma {:induction false} TagsCollected(steps: seq<Step>, p: Parsed)
    requires Run(steps, p).Success? && p.options.tags.Some?
    requires forall s <- steps :: s.kind != RootIsTrunk && s.kind != NoTags
    ensures Run(steps, p).value.options.tags == Some(p.options.tags.value + Collected(steps, Tags))
  {
    var xs := p.options.tags.value;
    if steps == [] {
      assert xs + [] == xs;
    } else {
      var s := steps[0];
      StepTags(s, p);
      TagsCollected(steps[1..], Apply(s.kind, s.arg, s.next, p).value);
      var here := if s.kind == Tags then Values(s.next) else [];
      assert Collected(steps, Tags) == here + Collected(steps[1..], Tags);
      AppendAssoc(xs, here, Collected(steps[1..], Tags));
    }
  }

  /** `--rootistrunk` nulls the branch and tag lists, so a `--branches` or
      `--tags` value right after it dereferences null, whatever follows. */
  lemma RootIsTrunkThenList(r: Step, s: Step, rest: seq<Step>, p: Parsed)
    requires r.kind == RootIsTrunk && (s.kind == Branches || s.kind == Tags) && s.next.Some?
    ensures Run([r, s] + rest, p) == Failure(GitOps.NullReference)
  {
    var p' := Apply(r.kind, r.arg, r.next, p).value;
    assert ([r, s] + rest)[1..] == [s] + rest;
    assert ([s] + rest)[1..] == rest;
    assert Run([r, s] + rest, p) == Run([s] + rest, p');
  }

  /** The rebase-branch command is on exactly when a rebase branch is set. */
  predicate RebaseBranchAgrees(p: Parsed)
  {
    p.commands.rebaseBranch <==> p.options.rebaseBranch.Some?
  }

  /** Only `--rebasebranch` touches the rebase branch, and it sets the
      command from the option it leaves. */
  lemma StepRebaseBranch(s: Step, p: Parsed)
    requires Apply(s.kind, s.arg, s.next, p).Success? && RebaseBranchAgrees(p)
    ensures RebaseBranchAgrees(Apply(s.kind, s.arg, s.next, p).value)
  {
    var q := Apply(s.kind, s.arg, s.next, p).value;
    if s.kind != RebaseBranch {
      assert q.commands.rebaseBranch == p.commands.rebaseBranch && q.options.rebaseBranch == p.options.rebaseBranch;
    }
  }

  lemma {:induction false} RebaseBranchAgreement(steps: seq<Step>, p: Parsed)
    requires RebaseBranchAgrees(p) && Run(steps, p).Success?
    ensures RebaseBranchAgrees(Run(steps, p).value)
  {
    if steps != [] {
      var s := steps[0];
      StepRebaseBranch(s, p);
      RebaseBranchAgreement(steps[1..], Apply(s.kind, s.arg, s.next, p).value);
    }
  }

  /** After parsing, the rebase-branch command is set exactly when a rebase
      branch was given: a `--rebasebranch` without a value keeps both as
      they were. */
  lemma ParsedRebaseBranchAgrees(args: seq<string>, authorsFileExists: bool, baseDirectory: string)
    requires ParseSpec(args, authorsFileExists, baseDirectory).Success?
    ensures RebaseBranchAgrees(ParseSpec(args, authorsFileExists, baseDirectory).value)
  {
    RebaseBranchAgreement(Steps(args, 0), Initial(authorsFileExists, baseDirectory));
  }

  /** The notices one pass produces. */
  function NoticeFor(s: Step): seq<Notice>
  {
    match s.kind
    case Help => [HelpShown]
    case UnknownLong => [UnknownOption(s.arg)]
    case _ => []
  }

  function NoticesFor(steps: seq<Step>): seq<Notice>
  {
    if steps == [] then [] else NoticeFor(steps[0]) + NoticesFor(steps[1..])
  }

  /** Only the help request and an unknown `--` option add a notice. */
  lemma StepNotices(s: Step, p: Parsed)
    requires Apply(s.kind, s.arg, s.next, p).Success?
    ensures Apply(s.kind, s.arg, s.next, p).value.notices == p.notices + NoticeFor(s)
  {
    ApplyFrame(s, p);
  }

  /** The help request and unknown `--` options are reported in order and
      parsing goes on past them; other unknown arguments are passed over
      silently. */
  lemma {:induction false} NoticesCollected(steps: seq<Step>, p: Parsed)
    requires Run(steps, p).Success?
    ensures Run(steps, p).value.notices == p.notices + NoticesFor(steps)
  {
    if steps != [] {
      var s := steps[0];
      StepNotices(s, p);
      NoticesCollected(steps[1..], Apply(s.kind, s.arg, s.next, p).value);
    }
  }

  /** A value-taking option given last is the last pass and changes no
      option. */
  lemma MissingValueIgnored(args: seq<string>, i: nat, p: Parsed)
    requires i == |args| - 1 && LabelOf(args[i]).TakesValue()
    ensures Steps(args, i) == [Step(LabelOf(args[i]), args[i], None)]
    ensures Apply(LabelOf(args[i]), args[i], None, p).Success?
    ensures Apply(LabelOf(args[i]), args[i], None, p).value.options == p.options
  {
  }

  /** Only `--trunk`, `--notrunk` and `--rootistrunk` touch the trunk. */
  lemma StepTrunk(s: Step, p: Parsed)
    requires Apply(s.kind, s.arg, s.next, p).Success?
    requires s.kind != Trunk && s.kind != NoTrunk && s.kind != RootIsTrunk
    ensures Apply(s.kind, s.arg, s.next, p).value.options.trunk == p.options.trunk
  {
    ApplyFrame(s, p);
  }

  /** With no option touching the trunk, it keeps its value. */
  lemma {:induction false} TrunkKept(steps: seq<Step>, p: Parsed)
    requires Run(steps, p).Success?
    requires forall s <- steps :: s.kind != Trunk && s.kind != NoTrunk && s.kind != RootIsTrunk
    ensures Run(steps, p).value.options.trunk == p.options.trunk
  {
    if steps != [] {
      var s := steps[0];
      StepTrunk(s, p);
      TrunkKept(steps[1..], Apply(s.kind, s.arg, s.next, p).value);
    }
  }

  /** With the default trunk kept, the program never exits early. */
  lemma DefaultTrunkRuns(args: seq<string>, authorsFileExists: bool, baseDirectory: string)
    requires ParseSpec(args, authorsFileExists, baseDirectory).Success?
    requires forall s <- Steps(args, 0) :: s.kind != Trunk && s.kind != NoTrunk && s.kind != RootIsTrunk
    ensures var p := ParseSpec(args, authorsFileExists, baseDirectory).value;
      !ShouldExitEarly(p.options, p.commands)
  {
    TrunkKept(Steps(args, 0), Initial(authorsFileExists, baseDirectory));
  }

  /** No option sets the URL or the output directory. */
  lemma StepPositionals(s: Step, p: Parsed)
    requires Apply(s.kind, s.arg, s.next, p).Success?
    ensures Apply(s.kind, s.arg, s.next, p).value.options.svnRepoUrl == p.options.svnRepoUrl
    ensures Apply(s.kind, s.arg, s.next, p).value.options.outputDirectory == p.options.outputDirectory
  {
    ApplyFrame(s, p);
  }

  /** The loop never sets the URL or the output directory. */
  lemma {:induction false} NoPositionalsInLoop(steps: seq<Step>, p: Parsed)
    requires Run(steps, p).Success?
    ensures Run(steps, p).value.options.svnRepoUrl == p.options.svnRepoUrl
    ensures Run(steps, p).value.options.outputDirectory == p.options.outputDirectory
  {
    if steps != [] {
      var s := steps[0];
      StepPositionals(s, p);
      NoPositionalsInLoop(steps[1..], Apply(s.kind, s.arg, s.next, p).value);
    }
  }

  /** The URL is the first argument with each space escaped by a backslash;
      without arguments there is none. The output directory is the second
      argument unless that starts with `-`. */
  lemma ParsedPositionals(args: seq<string>, authorsFileExists: bool, baseDirectory: string)
    requires ParseSpec(args, authorsFileExists, baseDirectory).Success?
    ensures var o := ParseSpec(args, authorsFileExists, baseDirectory).value.options;
      && (|args| == 0 ==> o.svnRepoUrl.None?)
      && (|args| > 0 ==> (o.svnRepoUrl.Some?
            && |o.svnRepoUrl.value| == |args[0]| + Count(args[0], ' ')
            && forall k :: 0 <= k < |o.svnRepoUrl.value| && o.svnRepoUrl.value[k] == ' ' ==>
                 k > 0 && o.svnRepoUrl.value[k - 1] == '\\'))
      && (o.outputDirectory.Some? <==> |args| > 1 && !StartsWith(args[1], "-"))
      && (o.outputDirectory.Some? ==> o.outputDirectory.value == args[1])
  {
    var init := Initial(authorsFileExists, baseDirectory);
    NoPositionalsInLoop(Steps(args, 0), init);
    PositionalFacts(args, Run(Steps(args, 0), init).value);
  }

  /** What the assignments after the loop do, for a state with neither a
      URL nor an output directory. */
  lemma PositionalFacts(args: seq<string>, p: Parsed)
    requires p.options.svnRepoUrl.None? && p.options.outputDirectory.None?
    ensures var o := Positional(args, p).options;
      && (|args| == 0 ==> o.svnRepoUrl.None?)
      && (|args| > 0 ==> (o.svnRepoUrl.Some?
            && |o.svnRepoUrl.value| == |args[0]| + Count(args[0], ' ')
            && forall k :: 0 <= k < |o.svnRepoUrl.value| && o.svnRepoUrl.value[k] == ' ' ==>
                 k > 0 && o.svnRepoUrl.value[k - 1] == '\\'))
      && (o.outputDirectory.Some? <==> |args| > 1 && !StartsWith(args[1], "-"))
      && (o.outputDirectory.Some? ==> o.outputDirectory.value == args[1])
  {
    if |args| > 0 {
      ReplaceCharIsEach(args[0], ' ', "\\ ");
      ReplaceEachLength(args[0], ' ', "\\ ");
      assert "\\ " == ['\\', ' '];
      ReplaceEachEscapes(args[0], ' ', '\\');
    }
  }
}
