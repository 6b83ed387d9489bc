/** StartupVerificationService.cs: the checks made before any migration
    step runs. Rebasing needs a clean working tree; a conversion needs the
    SVN URL among the arguments. */
module StartupVerification {
  import opened Wrappers
  import opened Text
  import opened GitOps
  import opened Gateway
  import opened Options

  const MissingUrl: string := "Missing SVN_URL parameter"
  const PendingChanges: string := "You have local pending changes. The working tree must be clean in order to continue."

  /** What `ShowHelpMessage` prints: the error with a blank line after it,
      or the parser's help text when there is no message. */
  function HelpLine(msg: string, helpMessage: string): string
  {
    if msg != "" then "Error starting script: " + msg + "\n" else helpMessage
  }

  /** `ShowHelpMessage`: prints, then always throws. */
  method ShowHelpMessage(git: GitGateway, msg: string, helpMessage: string) returns (res: Outcome<Error>)
    requires git.Valid()
    modifies git
    ensures old(git.probes) <= git.probes
    ensures git.Valid()
    ensures git.committerDate == old(git.committerDate)
    ensures git.Trace == old(git.Trace) + [WriteLine(HelpLine(msg, helpMessage))]
    ensures res == Fail(InvalidOperation(msg))
  {
    var line := if msg != "" then "Error starting script: " + msg + "\n" else helpMessage;
    var _ := git.Call(WriteLine(line));
    res := Fail(InvalidOperation(msg));
  }

  /** How the working-tree check ends for the status git reports. */
  function TreeCheck(output: Op -> string, fails: Op -> bool): Outcome<Error>
  {
    if Fails(fails, GetWorkingDirectoryStatus) then Fail(CommandFailed(GetWorkingDirectoryStatus))
    else if !IsNullOrWhiteSpace(Some(output(GetWorkingDirectoryStatus))) then Fail(InvalidOperation(PendingChanges))
    else Pass
  }

  /** `VerifyWorkingTreeIsClean`. */
  method VerifyWorkingTreeIsClean(git: GitGateway) returns (res: Outcome<Error>)
    requires git.Valid()
    modifies git
    ensures old(git.probes) <= git.probes
    ensures git.Valid()
    ensures git.committerDate == old(git.committerDate)
    ensures git.Trace == old(git.Trace) + [GetWorkingDirectoryStatus]
    ensures res == TreeCheck(git.output, git.fails)
  {
    var status := git.Perform(GetWorkingDirectoryStatus);
    if status.Failure? {
      return Fail(status.error);
    }
    if !IsNullOrWhiteSpace(Some(status.value)) {
      return Fail(InvalidOperation(PendingChanges));
    }
    res := Pass;
  }

  /** Whether `Check` looks at the working tree: in rebase mode, or when a
      rebase branch was given. */
  predicate ChecksTree(commands: MigrationCommands, options: MigrationOptions)
  {
    commands.rebase || options.rebaseBranch.Some?
  }

  /** The requests `Check` makes. */
  function CheckRequests(commands: MigrationCommands, options: MigrationOptions, argCount: nat, helpMessage: string): seq<Op>
  {
    if ChecksTree(commands, options) then [GetWorkingDirectoryStatus]
    else if argCount == 0 then [WriteLine(HelpLine(MissingUrl, helpMessage))]
    else []
  }

  /** How `Check` ends. */
  function CheckEnding(commands: MigrationCommands, options: MigrationOptions, argCount: nat,
                       output: Op -> string, fails: Op -> bool): Outcome<Error>
  {
    if ChecksTree(commands, options) then TreeCheck(output, fails)
    else if argCount == 0 then Fail(InvalidOperation(MissingUrl))
    else Pass
  }

  /** `Check`. */
  method Check(git: GitGateway, commands: MigrationCommands, options: MigrationOptions, args: seq<string>,
               helpMessage: string) returns (res: Outcome<Error>)
    requires git.Valid()
    modifies git
    ensures old(git.probes) <= git.probes
    ensures git.Valid()
    ensures git.committerDate == old(git.committerDate)
    ensures git.Trace == old(git.Trace) + CheckRequests(commands, options, |args|, helpMessage)
    ensures res == CheckEnding(commands, options, |args|, git.output, git.fails)
  {
    if commands.rebase {
      res := VerifyWorkingTreeIsClean(git);
    } else if options.rebaseBranch != None {
      res := VerifyWorkingTreeIsClean(git);
    } else {
      res := Pass;
      if |args| == 0 {
        res := ShowHelpMessage(git, MissingUrl, helpMessage);
      }
    }
  }

  /** The working tree is refused exactly when the status git reports has
      something besides white space. */
  lemma DirtyTreeRefused(output: Op -> string, fails: Op -> bool)
    requires !Fails(fails, GetWorkingDirectoryStatus)
    ensures TreeCheck(output, fails) == Fail(InvalidOperation(PendingChanges)) <==> Trim(output(GetWorkingDirectoryStatus)) != ""
    ensures TreeCheck(output, fails) == Pass <==> Trim(output(GetWorkingDirectoryStatus)) == ""
  {
    BlankIffTrimEmpty(output(GetWorkingDirectoryStatus));
  }

  /** The tree check keys on the rebase-branch option, not on the command
      flag the parser derives from it. */
  lemma CheckIgnoresRebaseBranchFlag(commands: MigrationCommands, options: MigrationOptions, argCount: nat,
                                     helpMessage: string, flag: bool)
    ensures CheckRequests(commands.(rebaseBranch := flag), options, argCount, helpMessage) == CheckRequests(commands, options, argCount, helpMessage)
    ensures ChecksTree(commands, options) <==> commands.rebase || options.rebaseBranch.Some?
  {
  }

  /** The check fails for want of a URL exactly in a plain conversion
      started without arguments; it never looks at the tree then. */
  lemma MissingUrlOnlyWithoutArguments(commands: MigrationCommands, options: MigrationOptions, argCount: nat,
                                       output: Op -> string, fails: Op -> bool)
    ensures CheckEnding(commands, options, argCount, output, fails) == Fail(InvalidOperation(MissingUrl)) <==>
      !ChecksTree(commands, options) && argCount == 0
  {
  }
}
