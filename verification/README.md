# svn2git-cs migration engine, modelled in Dafny

svn2git-cs migrates a Subversion repository that `git svn` has already
fetched into a git repository. Its `Main` parses the command line, stops
early when there is nothing to do, and runs the `--createauthors` mode on
its own. Otherwise it builds a list of migration steps for the mode
(plain conversion, `--rebase`, `--rebasebranch`), checks the start-up
conditions, and runs the steps in order over a shared state record
(`SharedData`: the options and the local, remote and tag branch lists).
The first exception aborts the run with exit code 1.

The model keeps this structure:

- **The git gateway.** `GitService` and what it talks to is the class
  `Gateway.GitGateway`. Every request the steps make is an `Op` value
  (`GitOps.Op`), appended in order to a ghost `Trace`. The command lines
  handed to the process runner go into a ghost `Commands`.
- **Oracles.** What each command prints and whether it exits non-zero are
  oracle functions fixed when the gateway is built.
- **Failures.** A strict request whose command fails throws.
  `GitOps.Issued(plan, fails)` is the part of a plan that is actually
  issued: everything through the first throwing request.
  `GitOps.Verdict(plan, fails)` is how the plan ends.
- **Step contracts.** Every step method ensures
  `Trace == old(Trace) + Issued(Plan(..), fails)` and
  `res == Verdict(Plan(..), fails)` for a specification function `Plan`.
  Lemmas then state what that plan does.
- **Mutable state.** `SharedData` is a class whose branch lists the steps
  reassign. The cached config command (`_gitConfigCommand`) and the
  `GIT_COMMITTER_DATE` environment variable are fields of the gateway.
- **Pure logic.** The argument parser's option loop, the
  `git svn init`/`fetch` command builders, the authors-file pipeline, the
  listing parsers, SHA-1 validation, quote escaping and repository-name
  extraction are functions, with loops as methods proved against them.

The first repeat of a converted tag name is suffixed `_1`: the second
`rel` becomes `rel_1` (`ConvertSvnTags.NumberedFirstRepeat`,
`ConvertSvnTags.RepeatNumbered`).

Modules: `Wrappers` (Option, Result, Outcome), `Seqs` (LINQ-like sequence
helpers), `Text` (.NET string operations), `StringUtilities`, `Options`,
`SharedState`, `GitOps`, `Gateway`, `SvnBranches` (branch-name rules
shared by the steps), `ArgumentParser`, `StartupVerification`,
`GetBranchesStep`, `GetRebaseBranchStep`, `LegacyBranchFixer`,
`RebaseBranchFixer`, `TrunkFixer`, `TagFixer`, `ConvertSvnTags`,
`SvnCloner`, `CreateAuthorsFile`, `Program`.

## Model

| member | source | states |
|---|---|---|
| Program.BuildPipeline | Program.cs:70-98 | the step list built by the `Add` calls is `Pipeline(commands)`: the checker, then the rebase, rebase-branch or conversion steps, then the optimizer |
| Program.PipelineEnds | Program.cs:70-98 | every pipeline starts with the installation checker and ends with the repository optimizer, and neither appears anywhere else |
| Program.RebaseTakesPrecedence | Program.cs:72-86 | with `--rebase`, the rebase-branch flag does not change the pipeline, which then has neither the rebase-branch step nor the legacy fixer |
| Program.ConversionKeepsMaster | Program.cs:87-98 | a plain conversion runs exactly checker, tag conversion, trunk fixer, optimizer, with no clone and no branch listing, so the trunk fixer sees an empty remote list and only checks out `master` |
| Program.CheckInstallation | Actions/GitSvnInstallationChecker.cs:17-30 | the two version probes are issued in order, and the step throws when a probe fails or prints nothing |
| Program.RunStep | Program.cs:110-113 | one `step.Run(sharedData)` issues exactly the requests of that step's own plan and ends as it does (the trunk step of rebase mode is a forced checkout of `master`, the optimizer is `git gc`), and hands on the shared data and GIT_COMMITTER_DATE that the step leaves: only the branch-list steps change the data and only the tag fixer changes the date |
| Program.RunSteps | Program.cs:110-113 | the loop issues exactly the requests of `RunAll`: the steps in list order, each started on the data and date its predecessors left, ending with the outcome of the last step started |
| Program.Execute | Program.cs:14-122 | exit code 1 on a parse failure and 0 on an early exit, both with no request issued; the authors mode issues only its own requests, with code 0 exactly when it succeeds; otherwise the start-up check comes first, a failed check gives 1 and runs no step, and after a passed check the pipeline's requests follow, with code 0 exactly when no step threw |
| Program.ThrowEndsRun | Program.cs:110-120 | once a step has thrown, the later steps issue nothing and change nothing: the run is the run up to that step |
| Program.RunAllPrefix | Program.cs:110-113 | the requests of the first steps open the requests of the whole run |
| Program.PassedRunRanEveryStep | Program.cs:110-122 | a run that ends normally started every step, each on the state its predecessors left, and each ended normally |
| Program.FailedRunStopsAtThrow | Program.cs:110-120 | a run that throws stopped at a step that threw after every earlier step ended normally, and ends with that step's exception |
| Program.RebaseBranchModeRetagsNothing | Actions/GetRebaseBranchStep.cs:65-68 | in rebase-branch mode the tag list is empty when the tag fixer starts, so it only saves the identity and retags nothing |
| StartupVerification.ShowHelpMessage | StartupVerificationService.cs:60-72 | prints the error line, or the help text for an empty message, then always throws `InvalidOperationException(msg)` |
| StartupVerification.VerifyWorkingTreeIsClean | StartupVerificationService.cs:74-82 | reads the working-tree status once and throws the pending-changes error exactly when the status is not null or white space |
| StartupVerification.Check | StartupVerificationService.cs:31-58 | rebase mode, then a non-null rebase-branch option, triggers the tree check; otherwise no arguments prints and throws "Missing SVN_URL parameter"; the requests and outcome are `CheckRequests` and `CheckEnding` |
| StartupVerification.DirtyTreeRefused | StartupVerificationService.cs:74-82 | the tree check refuses exactly when the trimmed status is non-empty, and passes exactly when it is empty |
| StartupVerification.CheckIgnoresRebaseBranchFlag | StartupVerificationService.cs:42-50 | the check keys on the rebase-branch option, not on the command flag derived from it |
| StartupVerification.MissingUrlOnlyWithoutArguments | StartupVerificationService.cs:51-57 | the missing-URL error arises exactly in a non-rebase run started with no arguments |
| ArgumentParser.Lookup | ArgumentParser.cs:69-177 | an argument found in the case table never selects the `default` branch |
| ArgumentParser.LookupFirst | ArgumentParser.cs:69-177 | the `switch` picks the first `case` whose text is the argument, and the lookup finds nothing exactly when no `case` has that text, so only then is the `default` reached or the argument passed over |
| ArgumentParser.LabelOf | ArgumentParser.cs:69-186 | an unknown argument is reported only when it starts with `--`; any other unknown argument is ignored |
| ArgumentParser.Width | ArgumentParser.cs:74-173 | every value-taking option advances the index by two, even when no value follows; all others by one |
| ArgumentParser.Initial | ArgumentParser.cs:42-65 | trunk `trunk`; empty branch, tag and exclude lists; every flag false; revision, user name and rebase branch null; all commands false; the authors path set exactly when `authors.txt` exists |
| ArgumentParser.Pass | ArgumentParser.cs:69-187 | one pass of the `switch` is `Apply` of the argument's case label, and the index moves on by `Width` |
| ArgumentParser.Parse | ArgumentParser.cs:40-215 | the `for` loop with its manually advanced index, then the positional assignments, computes `ParseSpec`: the passes in order, the first exception ending the loop |
| ArgumentParser.AssignPositionals | ArgumentParser.cs:190-213 | the assignments after the loop compute `Positional` |
| ArgumentParser.StepsAt | ArgumentParser.cs:67-188 | the loop state at index `i`: a throwing pass ends the parse, otherwise parsing continues at `i + Width` |
| ArgumentParser.RunStep | ArgumentParser.cs:67-188 | one pass, then the rest: a throwing pass ends the run with its exception |
| ArgumentParser.ApplyFrame | ArgumentParser.cs:69-187 | a pass grows the exclude list and the notices only for their own options, changes the trunk only for the three trunk options, and never sets the URL or the output directory |
| ArgumentParser.StepExclude | ArgumentParser.cs:153-160 | a pass appends the value of an `--exclude` and leaves the list alone otherwise |
| ArgumentParser.ExcludeCollected | ArgumentParser.cs:153-160 | the exclude list is the `--exclude` values, in argument order |
| ArgumentParser.StepBranches | ArgumentParser.cs:99-106 | a pass appends the value of a `--branches` to a branch list it does not null |
| ArgumentParser.BranchesCollected | ArgumentParser.cs:99-106 | unless something nulls the list, the branch list is the `--branches` values, in argument order |
| ArgumentParser.StepTags | ArgumentParser.cs:107-114 | a pass appends the value of a `--tags` to a tag list it does not null |
| ArgumentParser.TagsCollected | ArgumentParser.cs:107-114 | unless something nulls the list, the tag list is the `--tags` values, in argument order |
| ArgumentParser.RootIsTrunkThenList | ArgumentParser.cs:99-120 | `--rootistrunk` followed by a `--branches` or `--tags` with a value throws a null reference |
| ArgumentParser.StepRebaseBranch | ArgumentParser.cs:165-173 | after any pass, the rebase-branch command is on exactly when a rebase branch is set |
| ArgumentParser.RebaseBranchAgreement | ArgumentParser.cs:165-173 | the agreement between the rebase-branch command and option holds through the whole loop |
| ArgumentParser.ParsedRebaseBranchAgrees | ArgumentParser.cs:165-173 | after parsing, the rebase-branch command is set exactly when a rebase branch was given |
| ArgumentParser.StepNotices | ArgumentParser.cs:174-186 | a pass adds the help notice for `-h`/`--help`, an unknown-option notice for an unknown `--` argument, and nothing otherwise |
| ArgumentParser.NoticesCollected | ArgumentParser.cs:174-186 | the help requests and unknown options are reported in argument order, and parsing goes on after them |
| ArgumentParser.MissingValueIgnored | ArgumentParser.cs:76-171 | a value-taking option given last is the last pass and changes no option |
| ArgumentParser.StepTrunk | ArgumentParser.cs:91-123 | a pass that is not `--trunk`, `--rootistrunk` or `--notrunk` leaves the trunk alone |
| ArgumentParser.TrunkKept | ArgumentParser.cs:91-123 | with no option touching the trunk, it keeps its value |
| ArgumentParser.DefaultTrunkRuns | ArgumentParser.cs:217-223 | with the default trunk kept, `ShouldExitEarly` is false |
| ArgumentParser.StepPositionals | ArgumentParser.cs:67-188 | no pass of the loop sets the URL or the output directory |
| ArgumentParser.NoPositionalsInLoop | ArgumentParser.cs:67-188 | the loop as a whole leaves the URL and the output directory as they were |
| ArgumentParser.ParsedPositionals | ArgumentParser.cs:190-213 | the URL is the first argument with every space escaped by a backslash; the output directory is the second argument unless it starts with `-` |
| ArgumentParser.PositionalFacts | ArgumentParser.cs:190-213 | the post-loop assignments set the URL only when there is an argument, and the output directory only from a second argument not starting with `-` |
| Options.ClassDefaults | MigrationOptions.cs:5-43 | a new options record has empty branch, tag and exclude lists and mail domain `example.com`; every other reference is null and every flag false |
| Options.ExtractRepoName | MigrationOptions.cs:45-68 | a null, empty or non-absolute URL gives `""`; otherwise the name is the slash-free suffix of the path, with its outer slashes trimmed, that follows its last `/` |
| Options.ExtractRepoNameOfPath | MigrationOptions.cs:53-64 | for the path `/dirs/segment/` the repository name is `segment` |
| SharedState.SharedData.constructor | SharedData.cs:3-12 | a new record holds the given options and empty local, remote and tag lists |
| StringUtilities.EscapedAppend | StringUtilities.cs:5-8 | character-wise escaping distributes over concatenation |
| StringUtilities.EscapeQuotesPerChar | StringUtilities.cs:5-8 | the two successive replacements escape each `'` as `\'` and each `"` as `\"`, leaving every other character as it is |
| StringUtilities.ApostrophesThenQuotes | StringUtilities.cs:7 | the second replacement sees only the input's double quotes, never the backslashes the first one added |
| StringUtilities.EscapeQuotesLength | StringUtilities.cs:7 | the output is the input plus one backslash per `'` and per `"` |
| StringUtilities.EscapedLength | StringUtilities.cs:7 | the same length law for the character-wise reference |
| StringUtilities.EscapedStart | StringUtilities.cs:7 | an escaped text never begins with a bare quote |
| StringUtilities.EscapedQuotesPreceded | StringUtilities.cs:7 | every `"` of an escaped text is preceded by a backslash |
| StringUtilities.UnescapeEscapeQuotes | StringUtilities.cs:7 | escaping loses nothing: reading the escapes back gives the original text |
| StringUtilities.UnescapeEscaped | StringUtilities.cs:7 | the same round trip for the character-wise reference |
| StringUtilities.Reversed | StringUtilities.cs:17-18 | the reversal has the input's length |
| StringUtilities.ReverseString | StringUtilities.cs:10-20 | null or empty input is returned as is; otherwise the characters reversed in place in an array, with apostrophes trimmed from both ends |
| StringUtilities.ReversedTwice | StringUtilities.cs:17-18 | reversing twice gives the text back |
| StringUtilities.ReverseTwiceWithoutApostrophes | StringUtilities.cs:10-20 | for a text without apostrophes, `ReverseString` applied twice gives the text back |
| GitOps.Issued | ProcessRunner.cs:98-109 | what is issued of a plan is a prefix of it, and non-empty for a non-empty plan |
| GitOps.VerdictPass | ProcessRunner.cs:98-109 | a plan ends normally exactly when none of its requests throws, and then all of it is issued |
| GitOps.VerdictFail | ProcessRunner.cs:98-109 | a plan that throws stops at its first throwing request, which ends the issued part and is the exception reported |
| GitOps.IssuedAppendPass | Program.cs:110-113 | when a first plan ends normally, the second one runs in full after it |
| GitOps.IssuedAppendFail | Program.cs:110-120 | when a first plan throws, the second is never started |
| GitOps.CommitterDateUnset | Actions/TagFixer.cs:45-54 | requests that do not set GIT_COMMITTER_DATE leave it as it was |
| GitOps.CommitterDateAfterAppend | Actions/TagFixer.cs:45-54 | the variable after two runs of requests is the result of replaying the second run from where the first left it |
| GitOps.ConfigCommandFor | GitService.cs:221-232 | the cached command is `git config` exactly when the probe's output contains "unknown option", otherwise `git config --local` |
| GitOps.CheckoutForceFlag | GitService.cs:30-34 | `Checkout` adds `-f` exactly when forced |
| GitOps.DeleteBranchRemoteFlag | GitService.cs:148-151 | `DeleteBranch` adds `-r` exactly for a remote branch |
| GitOps.CommitInfoFormat | GitService.cs:188-214 | each commit getter asks git for its own field only |
| GitOps.QuotedArgumentIsClosed | GitService.cs:100-104 | a text put inside double quotes on a command line holds no unescaped `"` |
| GitOps.CleanBranchLine | GitService.cs:239 | a cleaned listing line holds no `*` and neither starts nor ends with white space |
| GitOps.NoStarAfterReplace | GitService.cs:239 | removing every `*` leaves none |
| GitOps.ParseBranchListEntries | GitService.cs:234-252 | every listed branch is non-empty, trimmed and star-free |
| GitOps.ParseBranchListKeeps | GitService.cs:234-252 | every line that is not blank once cleaned is listed |
| GitOps.ParseBranchListOrder | GitService.cs:234-252 | the listing keeps the order of git's output |
| GitOps.ParseTagRefsLines | GitService.cs:254-263 | every tag-ref line is non-empty and holds no `\n` or `\r` |
| GitOps.ParseTagRefsKeepsText | GitService.cs:254-263 | nothing of the output but the line breaks is lost |
| GitOps.IsHexadecimal | GitService.cs:336-347 | the scan answers true exactly when every character is in `[0-9a-fA-F]` |
| GitOps.IsValidSha1Hash | GitService.cs:350-353 | true exactly for a non-null hash of 40 hexadecimal characters |
| Gateway.LoggedIsMap | GitService.cs:280-300 | the verbose echo holds one `Running command:` line per command, in order |
| Gateway.GitGateway.constructor | GitService.cs:15-23 | a fresh gateway has issued nothing, echoed nothing and cached no config command |
| Gateway.GitGateway.RunCommand | GitService.cs:280-300 | the command goes to the process runner and is echoed first exactly in verbose mode |
| Gateway.GitGateway.GetGitConfigCommand | GitService.cs:221-232 | the probe runs and the probe count rises by one exactly when nothing is cached; the answer is `ConfigCommandFor` of its output, and `Valid` bounds the count by one, so the probe runs at most once per gateway |
| Gateway.GitGateway.Perform | GitService.cs:30-328 | one request: its command line (opening with the config command where needed) is run, preceded by the probe only when it needs the config command and none is cached; a request without the config command leaves the cache and the probe count alone; it throws exactly when strict and failing, and otherwise returns the command's output |
| Gateway.GitGateway.Call | GitService.cs:30-179 | a `void` gateway call appends its request and its command line (with the probe before it only on the first config request), keeps the cache, and throws exactly when the command fails |
| Gateway.GitGateway.GetLocalBranches | GitService.cs:234-242 | `git branch -l` is the one command line run and its output is parsed by `ParseBranchList`, or its failure is returned; the cache and the probe count are kept |
| Gateway.GitGateway.GetRemoteBranches | GitService.cs:244-252 | `git branch -r` is the one command line run and its output is parsed by `ParseBranchList`, or its failure is returned; the cache and the probe count are kept |
| Gateway.GitGateway.GetTagsListWithHashes | GitService.cs:254-263 | the `for-each-ref` command is the one line run and its output is parsed by `ParseTagRefs`, or its failure is returned; the cache and the probe count are kept |
| Gateway.GitGateway.GetCommitInfo | GitService.cs:188-214 | git's answer for the field with leading and trailing apostrophes trimmed, from one `git log` line; the cache and the probe count are kept |
| Gateway.GitGateway.GetConfigValue | GitService.cs:216-219 | a non-strict read that always answers with git's output; it opens with the cached config command, probing first only if nothing is cached yet |
| Gateway.GitGateway.GetBranchTrackInfo | GitService.cs:181-186 | a non-strict probe that always answers with git's output; the cache and the probe count are kept |
| Gateway.GitGateway.CherryPick | GitService.cs:62-88 | a null or empty hash throws `ArgumentNullException`, and a hash that is not 40 hex digits throws `ArgumentException`, both before any command; a failing cherry-pick is rethrown as `InvalidOperationException` |
| Gateway.GitGateway.CreateTagFromSvnRemote | GitService.cs:106-140 | an empty tag name throws before any command; a null message is taken as `""`; a failing command (the runner throws a plain exception or a timeout) is rethrown as the unexpected-error invalid operation naming the tag |
| SvnBranches.TagsOfRemote | Actions/GetBranchesStep.cs:24-26 | the tag list is the remote branches under `svn/tags/`, in order, each as often as it is listed |
| SvnBranches.CandidatesAfterGetBranches | Actions/LegacyBranchFixer.cs:30-32 | with the tag list from the branch listing, the fixers' candidates are exactly the `svn/` remotes not under `svn/tags/`, in order |
| SvnBranches.LeafName | Actions/LegacyBranchFixer.cs:39 | the leaf (every `svn/` removed, then trimmed) neither starts nor ends with white space |
| SvnBranches.ReplaceAbsent | Actions/LegacyBranchFixer.cs:39 | replacing a pattern that does not occur changes nothing |
| SvnBranches.LeafOfSvnBranch | Actions/LegacyBranchFixer.cs:39 | `svn/name` stands for the local branch `name` when the name is trimmed and holds no further `svn/` |
| GetBranchesStep.PlanOutcome | Actions/GetBranchesStep.cs:21-22 | the local listing comes first, and the remote listing runs only if it passed |
| GetBranchesStep.Run | Actions/GetBranchesStep.cs:18-27 | the local then the remote listing, the first throw ending the step; the data left is `After`: each list is replaced wholesale by git's list as soon as git answers, and the tag list is recomputed as `TagsOf` a new remote list; the options are untouched |
| GetRebaseBranchStep.MatchingCount | Actions/GetRebaseBranchStep.cs:27-28 | the local matches are exactly the copies of the requested name |
| GetRebaseBranchStep.Run | Actions/GetRebaseBranchStep.cs:24-70 | ends as `Decision`: the checks run in order (more than one local match, none, more than two remote matches, none); the data left is `Narrowed`: a refusal leaves it unchanged, success leaves the one local branch, the remotes containing the name, and no tags |
| GetRebaseBranchStep.NarrowedRemotes | Actions/GetRebaseBranchStep.cs:29-30 | the narrowed remote list keeps exactly the remotes containing the name, in their original order |
| GetRebaseBranchStep.LocalChecks | Actions/GetRebaseBranchStep.cs:27-44 | a name listed once passes the local checks as `[name]`; one listed twice is refused |
| LegacyBranchFixer.FixPrefix | Actions/LegacyBranchFixer.cs:37-73 | the requests for the first candidates open the requests for all of them |
| LegacyBranchFixer.FixSnoc | Actions/LegacyBranchFixer.cs:37-73 | one more candidate adds its own requests at the end, made in the state the earlier ones left |
| LegacyBranchFixer.FixBranch | Actions/LegacyBranchFixer.cs:39-72 | one pass of the loop body issues `LeafOps` and moves the two flags to `LeafState` |
| LegacyBranchFixer.CheckoutTracking | Actions/LegacyBranchFixer.cs:64-70 | the warning before the first tracking checkout, then a non-forced `Checkout` |
| LegacyBranchFixer.Run | Actions/LegacyBranchFixer.cs:26-74 | the candidates are walked in order, with requests and outcome those of `Plan`; the shared data is not modified |
| LegacyBranchFixer.LeafWarning | Actions/LegacyBranchFixer.cs:64-68 | one leaf shows the warning at most once, and only after a probe that was not refused |
| LegacyBranchFixer.WarningShownOnce | Actions/LegacyBranchFixer.cs:35-68 | over the whole run the warning is shown exactly once if some probe was accepted, and never otherwise |
| LegacyBranchFixer.LeafProbes | Actions/LegacyBranchFixer.cs:47-61 | within one leaf the probe comes first if at all; none is made once tracking was refused; the refusal flag is set exactly by a refused probe |
| LegacyBranchFixer.RefusalRemembered | Actions/LegacyBranchFixer.cs:47-61 | the loop remembers a refusal exactly when one of its probes was refused |
| LegacyBranchFixer.FallbackSticky | Actions/LegacyBranchFixer.cs:47-61 | once a probe was refused, no later probe is made |
| LegacyBranchFixer.LeafHandled | Actions/LegacyBranchFixer.cs:40-72 | a leaf that is local or `trunk` gets no request; any other gets a request concerning it |
| LegacyBranchFixer.EveryBranchHandled | Actions/LegacyBranchFixer.cs:37-73 | every candidate without a local branch (and not `trunk`) gets a checkout or branch creation, and every request concerns such a leaf |
| RebaseBranchFixer.RebasesSnoc | Actions/RebaseBranchFixer.cs:26-37 | one more candidate adds its own requests at the end |
| RebaseBranchFixer.RebasesPrefix | Actions/RebaseBranchFixer.cs:26-37 | the requests for the first candidates open those for all |
| RebaseBranchFixer.RebaseLeaf | Actions/RebaseBranchFixer.cs:31-36 | a leaf that is local or `trunk` gets a forced checkout of its branch (`master` for `trunk`) then a rebase; any other gets nothing |
| RebaseBranchFixer.RebaseAll | Actions/RebaseBranchFixer.cs:26-37 | the loop issues the candidates' requests in order until one throws |
| RebaseBranchFixer.Run | Actions/RebaseBranchFixer.cs:17-38 | the fetch, then the candidates' checkout and rebase pairs; the shared data is unchanged |
| RebaseBranchFixer.RebaseAfterCheckout | Actions/RebaseBranchFixer.cs:33-35 | every rebase comes right after the forced checkout of its local branch |
| RebaseBranchFixer.RebasedLeaves | Actions/RebaseBranchFixer.cs:29-35 | exactly the leaves that are local or `trunk` are rebased, and every request is a forced checkout or a rebase |
| RebaseBranchFixer.FetchFirst | Actions/RebaseBranchFixer.cs:24 | the fetch opens the plan, even with no candidate, and is issued once |
| RebaseBranchFixer.FixersDisjoint | Actions/RebaseBranchFixer.cs:29-31 | no leaf the rebase fixer rebases is touched by the legacy fixer: their skip rules are inverse |
| TrunkFixer.FindTrunk | Actions/TrunkFixer.cs:20 | a trunk is found exactly when some remote entry trims to `trunk`, and it is one of them |
| TrunkFixer.FindTrunkFirst | Actions/TrunkFixer.cs:20 | the entry found is the first that trims to `trunk` |
| TrunkFixer.RecreateMaster | Actions/TrunkFixer.cs:23-25 | `Checkout("svn/trunk", false)`, `DeleteBranch("master", false)`, `CheckoutAndCreateBranch("master")`, each only if the one before passed |
| TrunkFixer.Run | Actions/TrunkFixer.cs:17-31 | `master` is recreated when a trunk is found, otherwise `Checkout("master", true)` alone; the requests depend only on the remote list |
| TrunkFixer.PrefixedIsNotTrunk | Actions/TrunkFixer.cs:20 | an `svn/` branch name never trims to `trunk`, so `svn/trunk` does not count |
| TrunkFixer.PrefixedRemotesKeepMaster | Actions/TrunkFixer.cs:20-30 | when every remote carries the `svn/` prefix, the step only checks out `master` |
| TagFixer.RestoreOp | Actions/TagFixer.cs:62-72 | a saved key is set to its trimmed value when non-blank, and unset otherwise |
| TagFixer.ReadTwo | Actions/TagFixer.cs:39-42 | two commit getters in order, the second only if the first passed |
| TagFixer.ReadCommit | Actions/TagFixer.cs:39-42 | subject, date, author and email are read in order; a failure can only be a commit read, and success yields the apostrophe-trimmed answers |
| TagFixer.Impersonate | Actions/TagFixer.cs:43-44 | the user name, then the user email, set to the commit's author |
| TagFixer.CreateDated | Actions/TagFixer.cs:45-55 | the committer date is overridden, the tag created, the saved date put back and the remote branch deleted; a failing tag creation leaves the override set |
| TagFixer.WriteTag | Actions/TagFixer.cs:43-55 | the identity writes, then the dated creation, with GIT_COMMITTER_DATE as those requests leave it |
| TagFixer.FixRef | Actions/TagFixer.cs:39-55 | one tag's reads and writes in order, and the committer date as they leave it |
| TagFixer.FixTag | Actions/TagFixer.cs:30-55 | the ref trimmed and the tag name derived by removing every `svn/tags/`, then the tag's requests |
| TagFixer.WriteVerdict | Actions/TagFixer.cs:43-55 | which write failed decides how a tag's writes end |
| TagFixer.RetagSnoc | Actions/TagFixer.cs:28-56 | one more tag adds its own requests at the end |
| TagFixer.RetagAll | Actions/TagFixer.cs:28-56 | the loop over the tags issues their requests in order until one throws |
| TagFixer.RestoreKey | Actions/TagFixer.cs:64-71 | restoring one key is one set or unset request |
| TagFixer.RestoreIdentity | Actions/TagFixer.cs:62-72 | `user.name`, then `user.email` |
| TagFixer.RestoreIfTagged | Actions/TagFixer.cs:58-73 | the identity is restored exactly when there are tags |
| TagFixer.Run | Actions/TagFixer.cs:18-75 | the identity read, the tags fixed in order, and, when there are tags, the identity restored on every exit path; an exception of the restore replaces the loop's |
| TagFixer.FinallyRestores | Actions/TagFixer.cs:24-73 | the saved identity is read first; with no tag nothing else is requested; with tags the restore follows the loop whether or not it threw |
| TagFixer.DatedDate | Actions/TagFixer.cs:45-54 | after the dated requests the committer date is the override exactly when the tag creation threw |
| TagFixer.WriteDate | Actions/TagFixer.cs:43-54 | the committer date after one tag's writes |
| TagFixer.ReadsKeepDate | Actions/TagFixer.cs:39-42 | the commit reads leave the committer date alone |
| TagFixer.RefDateLeft | Actions/TagFixer.cs:39-54 | for one tag, the committer date as its requests leave it is `DateLeft` of its outcome |
| TagFixer.RetagDateLeft | Actions/TagFixer.cs:28-56 | replaying the loop's requests gives the committer date `RetagAll` ensures |
| ConvertSvnTags.TrailingDigits | Actions/ConvertSvnTagsToGitTags.cs:36-39 | the length of the run of ASCII digits that ends the name |
| ConvertSvnTags.SuffixBeforeTrailingDigits | Actions/ConvertSvnTagsToGitTags.cs:36-39 | a match of `@(\d+)$` can only start right before the trailing digits |
| ConvertSvnTags.CleanTagSpec | Actions/ConvertSvnTagsToGitTags.cs:36-39 | a trailing `@` and digits become `_r` and the same digits; any other name is unchanged |
| ConvertSvnTags.CreateAndReport | Actions/ConvertSvnTagsToGitTags.cs:55-69 | the tag, unless named `trunk`, then the console line |
| ConvertSvnTags.Number | Actions/ConvertSvnTagsToGitTags.cs:41-49 | the `tagCounts` lookup: a new name is recorded with 0; a name met before is counted up and numbered |
| ConvertSvnTags.ConvertLine | Actions/ConvertSvnTagsToGitTags.cs:26-70 | one pass of the loop body issues `LineOps` and moves `tagCounts` on by `NextCounts` |
| ConvertSvnTags.ConvertAll | Actions/ConvertSvnTagsToGitTags.cs:24-71 | the lines converted in order, `tagCounts` carried from line to line |
| ConvertSvnTags.Run | Actions/ConvertSvnTagsToGitTags.cs:17-72 | the refs under `refs/remotes` listed, then converted one line at a time |
| ConvertSvnTags.CleansSnoc | Actions/ConvertSvnTagsToGitTags.cs:26-39 | a well-formed line adds its clean name |
| ConvertSvnTags.LineFields | Actions/ConvertSvnTagsToGitTags.cs:26-33 | a line splits at its first space: the ref before it, the commit all of the rest; the tag targets that commit with message `Converted from SVN: <ref>` |
| ConvertSvnTags.SpacelessLineSkipped | Actions/ConvertSvnTagsToGitTags.cs:26-27 | a line without a space creates no tag, prints nothing and counts nothing |
| ConvertSvnTags.RevisionRewritten | Actions/ConvertSvnTagsToGitTags.cs:36-39 | `name@123` becomes `name_r123` |
| ConvertSvnTags.CountsTally | Actions/ConvertSvnTagsToGitTags.cs:41-49 | `tagCounts` holds exactly the clean names met so far, each with one less than the times it was met |
| ConvertSvnTags.NumberedFirstRepeat | Actions/ConvertSvnTagsToGitTags.cs:41-44 | the first repeat of `c` is named `c_1` |
| ConvertSvnTags.RepeatNumbered | Actions/ConvertSvnTagsToGitTags.cs:41-49 | a line's name is its clean name the first time and `<clean>_k` for the k-th repeat |
| ConvertSvnTags.TrunkSkipped | Actions/ConvertSvnTagsToGitTags.cs:55-69 | the first ref named `trunk` gets no tag, only its console line |
| ConvertSvnTags.TrunkCounted | Actions/ConvertSvnTagsToGitTags.cs:41-61 | the skipped `trunk` is still counted, so the next one becomes `trunk_1` and is created |
| ConvertSvnTags.NumberedNameNotReserved | Actions/ConvertSvnTagsToGitTags.cs:41-49 | generated names are not recorded, so a repeat of `x` and a later literal `x_1` both get the name `x_1` |
| SvnCloner.AppendFlags | Actions/SvnCloner.cs:51-67 | the `foreach` appends one flag per directory, in order |
| SvnCloner.AddPatterns | Actions/SvnCloner.cs:106-120 | the `foreach` adds one ignore pattern per directory, in order |
| SvnCloner.BuildInitCommand | Actions/SvnCloner.cs:28-70 | the command built piece by piece is `InitCommand` |
| SvnCloner.BuildFetchCommand | Actions/SvnCloner.cs:79-126 | the command built piece by piece is `FetchCommand` |
| SvnCloner.Run | Actions/SvnCloner.cs:15-135 | init, the authors file when one is named, fetch; the first that throws ends the step |
| SvnCloner.InitPrefix | Actions/SvnCloner.cs:29 | every init command opens with `git svn init --prefix=svn/ ` |
| SvnCloner.RootIgnoresLayout | Actions/SvnCloner.cs:34-121 | with the root as trunk, the trunk, tag and branch options play no part, and the ignore expression has no layout alternative |
| SvnCloner.EmptyListIsStandard | Actions/SvnCloner.cs:44-68 | an empty tag or branch list means the standard `tags` or `branches` directory |
| SvnCloner.SameLayout | Actions/SvnCloner.cs:40-126 | the commands depend on the layout lists only through the directories they stand for |
| SvnCloner.PatternCount | Actions/SvnCloner.cs:99-121 | one ignore alternative for the trunk and one per tag and branch directory |
| SvnCloner.FlatMapLength | Actions/SvnCloner.cs:106-120 | one pattern per directory |
| SvnCloner.OpenRange | Actions/SvnCloner.cs:85-94 | a revision `a` is fetched as `-r a:HEAD ` |
| SvnCloner.ClosedRange | Actions/SvnCloner.cs:85-94 | `a:b` is fetched as `-r a:b `; anything after a second `:` is dropped |
| SvnCloner.PlanOrder | Actions/SvnCloner.cs:34-128 | init first, fetch last, and `SetAuthorsFile` in between exactly when the authors path is non-empty |
| CreateAuthorsFile.AuthorsFilePath | Actions/CreateAuthorsFile.cs:72-95 | a rooted authors path is used as it is; a relative one, or the default `authors.txt`, is combined with the application directory |
| CreateAuthorsFile.Run | Actions/CreateAuthorsFile.cs:19-70 | without a URL nothing is requested and the step throws; otherwise the log is exported and the authors file written from it |
| CreateAuthorsFile.SplitHasSecondField | Actions/CreateAuthorsFile.cs:42 | splitting on the vertical bar yields a second field exactly when the line holds one |
| CreateAuthorsFile.AuthorOfDefined | Actions/CreateAuthorsFile.cs:42 | a revision line's author is missing exactly when it has no vertical bar |
| CreateAuthorsFile.RevisionAuthorsSpec | Actions/CreateAuthorsFile.cs:40-42 | the pipeline throws exactly when some `^r\d+` line has no vertical bar; otherwise the authors are the trimmed second fields of those lines |
| CreateAuthorsFile.DistinctCounts | Actions/CreateAuthorsFile.cs:43 | `Distinct` keeps one copy of every value |
| CreateAuthorsFile.InsertCounts | Actions/CreateAuthorsFile.cs:45 | one insertion step of the sort adds exactly one copy of the value |
| CreateAuthorsFile.InsertSorted | Actions/CreateAuthorsFile.cs:45 | inserting a new value keeps a strictly sorted list strictly sorted |
| CreateAuthorsFile.SortAuthorsCounts | Actions/CreateAuthorsFile.cs:45 | the sort is a permutation |
| CreateAuthorsFile.SortAuthorsSorted | Actions/CreateAuthorsFile.cs:45 | a list without repeats comes out strictly ascending |
| CreateAuthorsFile.AuthorListSpec | Actions/CreateAuthorsFile.cs:40-45 | the authors are strictly ascending, and they are exactly the non-empty authors of revision lines |
| CreateAuthorsFile.SortedUnique | Actions/CreateAuthorsFile.cs:43-45 | two strictly sorted lists with the same values are the same list |
| CreateAuthorsFile.SameAuthorsSameFile | Actions/CreateAuthorsFile.cs:40-54 | the file depends only on which authors the revision lines name: one `A = A <A@domain>` line each |
| CreateAuthorsFile.FailuresWrapped | Actions/CreateAuthorsFile.cs:23-61 | without a URL the step throws before any request; every later failure, a revision line with no vertical bar included, is a `MigrationException` |
| Text.StripStartDrops | GitService.cs:239 | leading trimming removes only dropped characters and stops at the first kept one |
| Text.StripEndDrops | GitService.cs:239 | trailing trimming removes only dropped characters and stops at the last kept one |
| Text.TrimIdempotent | Actions/TagFixer.cs:30-31 | trimming twice is trimming once |
| Text.BlankIffTrimEmpty | StartupVerificationService.cs:77 | `IsNullOrWhiteSpace` holds exactly when the value trims to nothing |
| Text.SplitAnyFields | GitService.cs:261 | no field of a split holds a separator |
| Text.JoinSplit | GitService.cs:238 | splitting on a character and joining with it gives back the input |
| Text.SplitFirst | Actions/ConvertSvnTagsToGitTags.cs:26 | `Split(' ', 2)` yields two parts exactly when the line holds a space: the text before the first one, and all of the rest |
| Text.SplitFirstInverse | Actions/ConvertSvnTagsToGitTags.cs:26-30 | the split is at the first separator and keeps the rest whole |
| Text.LastSegmentSuffix | Actions/ConvertSvnTagsToGitTags.cs:33 | the last segment is the text after the last `/` |
| Text.LastSegmentAfter | MigrationOptions.cs:58-63 | the segment after the last separator is the last segment |
| Text.ReplaceCharIsEach | StringUtilities.cs:7 | `Replace` of a one-character pattern substitutes every occurrence independently |
| Text.NatToString | Actions/ConvertSvnTagsToGitTags.cs:44 | a counter prints as at least one decimal digit |
| Text.Combine | Actions/CreateAuthorsFile.cs:85 | `Path.Combine` keeps a rooted file as it is, and otherwise puts the file after the directory |
| Text.BelowTransitive | Actions/CreateAuthorsFile.cs:45 | the ordinal order the sort uses is transitive |
| Text.BelowTotal | Actions/CreateAuthorsFile.cs:45 | the order is total on distinct strings |

## Left out

- The process runner keeps only the first 1000 lines of a command's standard output (`maxOutputLines`, ProcessRunner.cs:18 and 69-72). The `output` oracle is any text and carries no such cap, so the model does not show a branch or tag listing longer than 1000 lines being cut short.
- ProcessRunner.cs is not part of this model. What a command prints and whether it fails are oracle inputs of the gateway. Not modelled: the concurrent reading of stdout and stderr, the timeout and the kill of the process, and the exact text of its exceptions.
- Console output is mostly left out. The model keeps only what a property needs: the help and error lines of the start-up check, the parser's notices, the legacy warning and the tag conversion's report lines. The step banners (`*** ...`) and ConsoleWriter.cs are left out.
- File-system calls are inputs or left out:
  - whether `authors.txt` exists and the application directory are parameters;
  - `Environment.ExpandEnvironmentVariables` is taken as the identity on `authors.txt`;
  - the creation of the output directory and of the repository directory in `Main` is left out, together with its exit code 1 when creation fails;
  - the `svn log` redirect is the single `ExportSvnLog` request, the authors-file write is one `WriteAuthorsFile` request, and the deletion of the temporary log is left out.
- `File.ReadAllLines` is modelled as a split of the exported log on `\n` and `\r`. A `\r\n` pair or a final line break then yields an extra empty line, which no later stage keeps.
- `Uri.TryCreate` and `AbsolutePath` are replaced by an input: the path of an absolute URL, or none.
- Regular expressions: `@(\d+)$`, `^r\d+` and the "Cannot setup tracking information" match are written as string predicates. The ignore-paths expression SvnCloner builds is only a string.
- ConvertSvnTags.TrailingDigits: `\d` in `@(\d+)$` is narrowed to the ASCII digits `0`-`9`. .NET's `\d` matches every Unicode decimal digit (category Nd), so a name such as `rel@١٢٣` is rewritten to `rel_r١٢٣` by the source and left unchanged by the model. ConvertSvnTags.CleanTagSpec inherits the same narrowing.
- CreateAuthorsFile.RevisionAuthorsSpec: `\d` in `^r\d+` is narrowed to ASCII digits in the same way. A log line that starts with `r` followed by a non-ASCII decimal digit counts as a revision line in the source but not in the model.
- `Path.IsPathRooted` and `Path.Combine` follow the Unix directory separator only.
- CreateAuthorsFile.SortAuthors: `OrderBy` uses ordinal (character-code) order, not the culture-sensitive comparer .NET uses by default.
- The help text of the parser is a parameter of the start-up check and of `Execute`, not a constant.
- SvnCloner is modelled as a step of its own but is not part of any pipeline, because the source's `Main` does not add it.
- Actions/GitSvnInstallationChecker.cs, Actions/RepoOptimizer.cs and Actions/TrunkFixerRebase.cs are each modelled as their requests inside `Program.RunStep`. The installation check's emptiness test is on the oracle output.
- GitService operations that no step calls are not modelled: `FindEquivalentCommitOnMaster`, `FindMergeBase`, `VerifyTag`, `CherryPickMerge`, and `CreateBareRepo`, which is called only inside `if (false)`. The other commands appear only as request values with their command lines.
- What git and svn do to the repository is not modelled. The model fixes which requests are issued and in which order.
- Program.Execute: the printed exception message and stack trace of the `catch` are not modelled.
- StringUtilities.ReverseString: a Dafny `char` is a Unicode scalar value, while .NET reverses UTF-16 code units. For text outside the Basic Multilingual Plane, .NET swaps the two halves of a surrogate pair and yields an ill-formed string, whereas the model keeps the character whole. The method is reached only from commented-out code in TagFixer.cs.
