/** GitService.cs together with what it talks to: the process runner (whose
    answers and failures are oracles fixed at construction), the console it
    echoes commands on, and the process environment variable the tag fixer
    overrides. Every request is recorded, in order, in the ghost `Trace`. */
module Gateway {
  import opened Wrappers
  import opened Seqs
  import opened Text
  import opened GitOps

  /** What `RunCommand` echoes through `Log` before running a command. */
  function LogLine(command: string): string
  {
    "Running command: " + command + "\n"
  }

  /** What verbose mode echoes for a run of commands: one log line each. */
  function Logged(commands: seq<string>): seq<string>
  {
    if commands == [] then [] else Logged(commands[..|commands| - 1]) + [LogLine(commands[|commands| - 1])]
  }

  /** The echo holds one log line per command, in order. */
  lemma {:induction false} LoggedIsMap(commands: seq<string>)
    ensures Logged(commands) == Map(commands, LogLine)
  {
    if commands != [] {
      LoggedIsMap(commands[..|commands| - 1]);
    }
  }

  class GitGateway {
    /** Every request made so far. */
    ghost var Trace: seq<Op>
    /** Every command line handed to the process runner by `RunCommand`. */
    ghost var Commands: seq<string>
    /** How many times the config probe has run; only `GetGitConfigCommand`
        counts it up, and `Valid` bounds it by one. */
    ghost var probes: nat

    /** `_gitConfigCommand`; the empty string while nothing is cached. */
    var gitConfigCommand: string
    /** The GIT_COMMITTER_DATE environment variable (`None`: not set). */
    var committerDate: Option<string>

    /** `MigrationOptions.Verbose`, read by `Log`. */
    const verbose: bool
    /** What each request's command prints. */
    const output: Op -> string
    /** Whether each request's command exits non-zero (or times out). */
    const fails: Op -> bool
    /** What the config probe prints. */
    const probeOutput: string
    /** GIT_COMMITTER_DATE as the process found it. */
    const environmentDate: Option<string>

    ghost predicate Valid()
      reads this
    {
      && (gitConfigCommand == "" <==> probes == 0)
      && probes <= 1
      && (gitConfigCommand != "" ==> gitConfigCommand == ConfigCommandFor(probeOutput))
    }

    /** What `Log` has written to the console: in verbose mode `RunCommand`
        echoes every command line before handing it over, otherwise nothing. */
    ghost function Echo(): seq<string>
      reads this
    {
      if verbose then Logged(Commands) else []
    }

    constructor (verbose: bool, output: Op -> string, fails: Op -> bool, probeOutput: string,
                 environmentDate: Option<string>)
      ensures Valid()
      ensures Trace == [] && Commands == [] && Echo() == [] && gitConfigCommand == ""
      ensures committerDate == environmentDate
      ensures this.verbose == verbose && this.output == output && this.fails == fails
      ensures this.probeOutput == probeOutput && this.environmentDate == environmentDate
    {
      this.verbose := verbose;
      this.output := output;
      this.fails := fails;
      this.probeOutput := probeOutput;
      this.environmentDate := environmentDate;
      Trace := [];
      Commands := [];
      probes := 0;
      gitConfigCommand := "";
      committerDate := environmentDate;
    }

    /** `RunCommand`: echo the command (through `Log`, so only in verbose
        mode), then hand it to the process runner. */
    method RunCommand(command: string)
      requires Valid()
      modifies this`Commands
      ensures Valid()
      ensures Commands == old(Commands) + [command]
      ensures Echo() == old(Echo()) + (if verbose then [LogLine(command)] else [])
    {
      Commands := Commands + [command];
      assert Commands[..|Commands| - 1] == old(Commands);
    }

    /** `GetGitConfigCommand`: the probe runs only while nothing is cached,
        so at most once per gateway; later calls return the cached command. */
    method GetGitConfigCommand() returns (cc: string)
      requires Valid()
      modifies this`Commands, this`probes, this`gitConfigCommand
      ensures Valid()
      ensures cc == gitConfigCommand == ConfigCommandFor(probeOutput)
      ensures probes == old(probes) + (if old(gitConfigCommand) == "" then 1 else 0) == 1
      ensures Commands == old(Commands) + (if old(gitConfigCommand) == "" then [ProbeCommand] else [])
    {
      if gitConfigCommand == "" {
        RunCommand(ProbeCommand);
        gitConfigCommand := ConfigCommandFor(probeOutput);
        probes := probes + 1;
      }
      cc := gitConfigCommand;
    }

    /** Records a request together with the environment change it makes. */
    method Record(op: Op)
      requires Valid()
      modifies this`Trace, this`committerDate
      ensures Valid()
      ensures Trace == old(Trace) + [op]
      ensures committerDate == if op.SetCommitterDate? then op.date else old(committerDate)
    {
      if op.SetCommitterDate? {
        committerDate := op.date;
      }
      Trace := Trace + [op];
    }

    /** One request: the command line is built (opening with the cached
        config command where it needs one), echoed and run; the request is
        recorded; a strict request whose command fails throws. */
    method Perform(op: Op) returns (res: Result<string, Error>)
      requires Valid()
      modifies this
      ensures Valid()
      ensures Trace == old(Trace) + [op]
      ensures res == if Fails(fails, op) then Failure(CommandFailed(op)) else Success(output(op))
      ensures committerDate == if op.SetCommitterDate? then op.date else old(committerDate)
      ensures gitConfigCommand == if op.NeedsConfigCommand() then ConfigCommandFor(probeOutput) else old(gitConfigCommand)
      ensures probes == old(probes) + (if op.NeedsConfigCommand() && old(gitConfigCommand) == "" then 1 else 0)
      ensures var cc := if op.NeedsConfigCommand() then ConfigCommandFor(probeOutput) else "";
        Commands == old(Commands)
          + (if op.NeedsConfigCommand() && old(gitConfigCommand) == "" then [ProbeCommand] else [])
          + GitCommand(op, cc).ToSeq()
    {
      var cc := "";
      if op.NeedsConfigCommand() {
        cc := GetGitConfigCommand();
      }
      var line := GitCommand(op, cc);
      if line.Some? {
        RunCommand(line.value);
      }
      Record(op);
      if Fails(fails, op) {
        res := Failure(CommandFailed(op));
      } else {
        res := Success(output(op));
      }
    }

    /** A `void` IGitService call. */
    method Call(op: Op) returns (res: Outcome<Error>)
      requires Valid()
      modifies this
      ensures Valid()
      ensures Trace == old(Trace) + [op]
      ensures res == Verdict([op], fails)
      ensures res == if Fails(fails, op) then Fail(CommandFailed(op)) else Pass
      ensures committerDate == if op.SetCommitterDate? then op.date else old(committerDate)
      ensures gitConfigCommand == if op.NeedsConfigCommand() then ConfigCommandFor(probeOutput) else old(gitConfigCommand)
      ensures probes == old(probes) + (if op.NeedsConfigCommand() && old(gitConfigCommand) == "" then 1 else 0)
      ensures var cc := if op.NeedsConfigCommand() then ConfigCommandFor(probeOutput) else "";
        Commands == old(Commands)
          + (if op.NeedsConfigCommand() && old(gitConfigCommand) == "" then [ProbeCommand] else [])
          + GitCommand(op, cc).ToSeq()
    {
      var r := Perform(op);
      res := if r.Failure? then Fail(r.error) else Pass;
    }

    /** `GetLocalBranches`. */
    method GetLocalBranches() returns (res: Result<seq<string>, Error>)
      requires Valid()
      modifies this
      ensures Valid()
      ensures Trace == old(Trace) + [ListLocalBranches]
      ensures committerDate == old(committerDate)
      ensures gitConfigCommand == old(gitConfigCommand) && probes == old(probes)
      ensures Commands == old(Commands) + [CommandLine(ListLocalBranches, "")]
      ensures res == if Fails(fails, ListLocalBranches) then Failure(CommandFailed(ListLocalBranches))
                     else Success(ParseBranchList(output(ListLocalBranches)))
    {
      var r := Perform(ListLocalBranches);
      res := if r.Failure? then Failure(r.error) else Success(ParseBranchList(r.value));
    }

    /** `GetRemoteBranches`. */
    method GetRemoteBranches() returns (res: Result<seq<string>, Error>)
      requires Valid()
      modifies this
      ensures Valid()
      ensures Trace == old(Trace) + [ListRemoteBranches]
      ensures committerDate == old(committerDate)
      ensures gitConfigCommand == old(gitConfigCommand) && probes == old(probes)
      ensures Commands == old(Commands) + [CommandLine(ListRemoteBranches, "")]
      ensures res == if Fails(fails, ListRemoteBranches) then Failure(CommandFailed(ListRemoteBranches))
                     else Success(ParseBranchList(output(ListRemoteBranches)))
    {
      var r := Perform(ListRemoteBranches);
      res := if r.Failure? then Failure(r.error) else Success(ParseBranchList(r.value));
    }

    /** `GetTagsListWithHashes`. */
    method GetTagsListWithHashes(tagsPath: string) returns (res: Result<seq<string>, Error>)
      requires Valid()
      modifies this
      ensures Valid()
      ensures Trace == old(Trace) + [ListTagRefs(tagsPath)]
      ensures committerDate == old(committerDate)
      ensures gitConfigCommand == old(gitConfigCommand) && probes == old(probes)
      ensures Commands == old(Commands) + [CommandLine(ListTagRefs(tagsPath), "")]
      ensures res == if Fails(fails, ListTagRefs(tagsPath)) then Failure(CommandFailed(ListTagRefs(tagsPath)))
                     else Success(ParseTagRefs(output(ListTagRefs(tagsPath))))
    {
      var r := Perform(ListTagRefs(tagsPath));
      res := if r.Failure? then Failure(r.error) else Success(ParseTagRefs(r.value));
    }

    /** `GetCommitSubject`, `GetCommitDate`, `GetCommitAuthorName`,
        `GetCommitAuthorEmail`: git's answer with apostrophes trimmed. */
    method GetCommitInfo(field: LogField, revision: string) returns (res: Result<string, Error>)
      requires Valid()
      modifies this
      ensures Valid()
      ensures Trace == old(Trace) + [Op.GetCommitInfo(field, revision)]
      ensures committerDate == old(committerDate)
      ensures gitConfigCommand == old(gitConfigCommand) && probes == old(probes)
      ensures Commands == old(Commands) + [CommandLine(Op.GetCommitInfo(field, revision), "")]
      ensures res == if Fails(fails, Op.GetCommitInfo(field, revision)) then Failure(CommandFailed(Op.GetCommitInfo(field, revision)))
                     else Success(CommitAnswer(output, field, revision))
    {
      var r := Perform(Op.GetCommitInfo(field, revision));
      res := if r.Failure? then Failure(r.error) else Success(TrimChar(r.value, '\''));
    }

    /** `GetConfigValue` (`GetUserName` and `GetUserEmail` pass `user.name`
        and `user.email`): non-strict, so it always answers. */
    method GetConfigValue(key: string) returns (value: string)
      requires Valid()
      modifies this
      ensures Valid()
      ensures Trace == old(Trace) + [Op.GetConfigValue(key)]
      ensures committerDate == old(committerDate)
      ensures gitConfigCommand == ConfigCommandFor(probeOutput)
      ensures probes == old(probes) + (if old(gitConfigCommand) == "" then 1 else 0)
      ensures Commands == old(Commands) + (if old(gitConfigCommand) == "" then [ProbeCommand] else [])
                          + [CommandLine(Op.GetConfigValue(key), ConfigCommandFor(probeOutput))]
      ensures value == output(Op.GetConfigValue(key))
    {
      var r := Perform(Op.GetConfigValue(key));
      value := r.value;
    }

    /** `GetBranchTrackInfo`: non-strict, so it always answers. */
    method GetBranchTrackInfo(branch: string) returns (info: string)
      requires Valid()
      modifies this
      ensures Valid()
      ensures Trace == old(Trace) + [Op.GetBranchTrackInfo(branch)]
      ensures committerDate == old(committerDate)
      ensures gitConfigCommand == old(gitConfigCommand) && probes == old(probes)
      ensures Commands == old(Commands) + [CommandLine(Op.GetBranchTrackInfo(branch), "")]
      ensures info == output(Op.GetBranchTrackInfo(branch))
    {
      var r := Perform(Op.GetBranchTrackInfo(branch));
      info := r.value;
    }

    /** `CherryPick`: a missing or empty hash and a hash that is not 40 hex
        digits are refused before anything runs; a failing cherry-pick is
        reported as an invalid operation. */
    method CherryPick(commitHash: Option<string>) returns (res: Outcome<Error>)
      requires Valid()
      modifies this
      ensures Valid()
      ensures gitConfigCommand == old(gitConfigCommand) && probes == old(probes)
      ensures committerDate == old(committerDate)
      ensures Commands == old(Commands) + (if commitHash.Some? && IsSha1(commitHash.value)
                                           then [CommandLine(Op.CherryPick(commitHash.value), "")] else [])
      ensures IsNullOrEmpty(commitHash) ==> res == Fail(ArgumentNull("commitHash")) && Trace == old(Trace)
      ensures !IsNullOrEmpty(commitHash) && !IsSha1(commitHash.value) ==>
        res == Fail(Argument("commitHash")) && Trace == old(Trace)
      ensures commitHash.Some? && IsSha1(commitHash.value) ==>
        Trace == old(Trace) + [Op.CherryPick(commitHash.value)]
        && res == if Fails(fails, Op.CherryPick(commitHash.value))
                  then Fail(InvalidOperation("Cherry-pick failed for commit " + commitHash.value + ". See inner exception for details."))
                  else Pass
    {
      if IsNullOrEmpty(commitHash) {
        return Fail(ArgumentNull("commitHash"));
      }
      var valid := IsValidSha1Hash(commitHash);
      if !valid {
        return Fail(Argument("commitHash"));
      }
      var r := Perform(Op.CherryPick(commitHash.value));
      if r.Failure? {
        res := Fail(InvalidOperation("Cherry-pick failed for commit " + commitHash.value + ". See inner exception for details."));
      } else {
        res := Pass;
      }
    }

    /** `CreateTagFromSvnRemote`: a missing or empty tag name is refused; a
        missing message is taken as empty. The runner fails with a plain
        exception (a non-zero exit) or a timeout, never with an invalid
        operation, so a failure always takes the second catch: an invalid
        operation reporting an unexpected error for the tag. */
    method CreateTagFromSvnRemote(tagName: Option<string>, message: Option<string>) returns (res: Outcome<Error>)
      requires Valid()
      modifies this
      ensures Valid()
      ensures gitConfigCommand == old(gitConfigCommand) && probes == old(probes)
      ensures committerDate == old(committerDate)
      ensures IsNullOrEmpty(tagName) ==> res == Fail(ArgumentNull("tagName")) && Trace == old(Trace) && Commands == old(Commands)
      ensures !IsNullOrEmpty(tagName) ==>
        var op := Op.CreateTagFromSvnRemote(tagName.value, message.GetOr(""));
        Trace == old(Trace) + [op]
        && Commands == old(Commands) + [CommandLine(op, "")]
        && res == if Fails(fails, op)
                  then Fail(InvalidOperation("An unexpected error occurred while creating tag '" + tagName.value + "' from SVN remote."))
                  else Pass
    {
      if IsNullOrEmpty(tagName) {
        return Fail(ArgumentNull("tagName"));
      }
      var msg := if message.None? then "" else message.value;
      var op := Op.CreateTagFromSvnRemote(tagName.value, msg);
      assert msg == message.GetOr("") && !op.NeedsConfigCommand();
      assert GitCommand(op, "").ToSeq() == [CommandLine(op, "")];
      var r := Perform(op);
      if r.Failure? {
        res := Fail(InvalidOperation("An unexpected error occurred while creating tag '" + tagName.value + "' from SVN remote."));
      } else {
        res := Pass;
      }
    }
  }
}
