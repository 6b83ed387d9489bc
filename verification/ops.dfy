/** The vocabulary of the git gateway (IGitService, implemented by GitService.cs):
    the requests the migration steps make, the command line each one becomes,
    which of them abort the run when their command fails, and the pure parts
    of the gateway (listing parsers, SHA-1 validation, config-command choice). */
module GitOps {
  import opened Wrappers
  import opened Seqs
  import opened Text
  import opened StringUtilities

  /** The four `git log` placeholders the commit getters ask for. */
  datatype LogField = Subject | Date | AuthorName | AuthorEmail

  /** One request to the outside world, in the order the steps make them.
      Most are IGitService calls; `RunProcess` and `ExportSvnLog` go
      straight to the process runner, `WriteAuthorsFile` to the file system,
      `WriteLine` to the console and `SetCommitterDate` to the process
      environment (GIT_COMMITTER_DATE; `None` removes the variable). */
  datatype Op =
    | Checkout(branch: string, force: bool)
    | CheckoutAndCreateBranch(branch: string)
    | CheckoutAndCreateBranchFromSvn(branch: string)
    | CherryPick(commitHash: string)
    | CreateTag(tagName: string, revision: string, message: string)
    | CreateTagFromSvnRemote(tagName: string, message: string)
    | CreateTagWithCommit(tagName: string, commit: string, message: string)
    | DeleteBranch(branch: string, remote: bool)
    | Fetch
    | GarbageCollect
    | GetBranchTrackInfo(branch: string)
    | GetCommitInfo(field: LogField, revision: string)
    | GetConfigValue(key: string)
    | ListLocalBranches
    | ListRemoteBranches
    | ListTagRefs(tagsPath: string)
    | GetWorkingDirectoryStatus
    | RebaseBranch(remoteBranch: string)
    | RunCommand(command: string)
    | SetAuthorsFile(authorsFile: string)
    | SetConfigValue(key: string, value: string)
    | SetUserEmail(userEmail: string)
    | SetUserName(userName: string)
    | UnsetConfigValue(key: string)
    | RunProcess(command: string)
    | ExportSvnLog(url: string)
    | WriteAuthorsFile(path: string, lines: seq<string>)
    | WriteLine(text: string)
    | SetCommitterDate(date: Option<string>)
  {
    /** Requests whose failure throws: every command GitService runs with
        `exitOnError` left true, the process runs of the installation check,
        the svn log export and the file write. The tracking probe and config reads run
        non-strict; console and environment writes cannot fail. */
    predicate Strict()
    {
      !(GetBranchTrackInfo? || GetConfigValue? || WriteLine? || SetCommitterDate?)
    }

    /** Requests whose command line begins with the cached config command. */
    predicate NeedsConfigCommand()
    {
      GetConfigValue? || SetAuthorsFile? || SetConfigValue? || SetUserEmail? || SetUserName? || UnsetConfigValue?
    }

    /** Requests that GitService turns into one command line through `RunCommand`. */
    predicate ThroughGitService()
    {
      !(RunProcess? || ExportSvnLog? || WriteAuthorsFile? || WriteLine? || SetCommitterDate?)
    }
  }

  /** What a commit getter returns: git's answer with apostrophes trimmed. */
  function CommitAnswer(output: Op -> string, field: LogField, revision: string): string
  {
    TrimChar(output(GetCommitInfo(field, revision)), '\'')
  }

  /** The exceptions the model distinguishes. */
  datatype Error =
    | CommandFailed(op: Op)
    | InvalidOperation(message: string)
    | ArgumentNull(paramName: string)
    | Argument(paramName: string)
    | NullReference
    | Migration(message: string)
    | Exception(message: string)

  /** Whether `op` throws, given which requests' commands exit non-zero. */
  predicate Fails(fails: Op -> bool, op: Op)
  {
    op.Strict() && fails(op)
  }

  /** The requests of `plan` that are actually made: everything up to and
      including the first one that throws. */
  function Issued(plan: seq<Op>, fails: Op -> bool): (r: seq<Op>)
    ensures r <= plan
    ensures plan != [] ==> r != []
  {
    if plan == [] then []
    else if Fails(fails, plan[0]) then [plan[0]]
    else [plan[0]] + Issued(plan[1..], fails)
  }

  /** How running `plan` ends: normally, or with the exception of the first
      request that throws. */
  function Verdict(plan: seq<Op>, fails: Op -> bool): Outcome<Error>
  {
    if plan == [] then Pass
    else if Fails(fails, plan[0]) then Fail(CommandFailed(plan[0]))
    else Verdict(plan[1..], fails)
  }

  /** A plan ends normally exactly when none of its requests throws, and then
      all of it is issued. */
  lemma {:induction false} VerdictPass(plan: seq<Op>, fails: Op -> bool)
    ensures Verdict(plan, fails) == Pass <==> forall op <- plan :: !Fails(fails, op)
    ensures Verdict(plan, fails) == Pass ==> Issued(plan, fails) == plan
  {
    if plan != [] {
      VerdictPass(plan[1..], fails);
      assert forall op <- plan :: op == plan[0] || op in plan[1..];
    }
  }

  /** A plan that throws stops at its first throwing request, which is the
      last one issued; everything before it went through. */
  lemma {:induction false} VerdictFail(plan: seq<Op>, fails: Op -> bool)
    requires Verdict(plan, fails).Fail?
    ensures var r := Issued(plan, fails);
      r != [] && Verdict(plan, fails) == Fail(CommandFailed(r[|r| - 1]))
      && Fails(fails, r[|r| - 1])
      && forall i :: 0 <= i < |r| - 1 ==> !Fails(fails, r[i])
  {
    if !Fails(fails, plan[0]) {
      VerdictFail(plan[1..], fails);
    }
  }

  /** Running two plans one after the other: when the first ends normally,
      the second runs in full behind it. */
  lemma {:induction false} IssuedAppendPass(a: seq<Op>, b: seq<Op>, fails: Op -> bool)
    requires Verdict(a, fails) == Pass
    ensures Issued(a + b, fails) == a + Issued(b, fails)
    ensures Verdict(a + b, fails) == Verdict(b, fails)
  {
    if a == [] {
      assert a + b == b;
    } else {
      assert (a + b)[1..] == a[1..] + b;
      IssuedAppendPass(a[1..], b, fails);
    }
  }

  /** When the first plan throws, the second is never started. */
  lemma {:induction false} IssuedAppendFail(a: seq<Op>, b: seq<Op>, fails: Op -> bool)
    requires Verdict(a, fails).Fail?
    ensures Issued(a + b, fails) == Issued(a, fails)
    ensures Verdict(a + b, fails) == Verdict(a, fails)
  {
    assert (a + b)[0] == a[0];
    if !Fails(fails, a[0]) {
      assert (a + b)[1..] == a[1..] + b;
      IssuedAppendFail(a[1..], b, fails);
    }
  }

  /** What GIT_COMMITTER_DATE holds once the requests of `trace` are made,
      starting from `start`: the date of the last `SetCommitterDate` among
      them, or `start` when there is none. */
  function CommitterDateAfter(start: Option<string>, trace: seq<Op>): Option<string>
  {
    if trace == [] then start
    else if trace[|trace| - 1].SetCommitterDate? then trace[|trace| - 1].date
    else CommitterDateAfter(start, trace[..|trace| - 1])
  }

  /** Requests that leave GIT_COMMITTER_DATE alone leave it as it was; a
      changed value is one that some request set. */
  lemma {:induction false} CommitterDateUnset(start: Option<string>, trace: seq<Op>)
    ensures (forall op <- trace :: !op.SetCommitterDate?) ==> CommitterDateAfter(start, trace) == start
    ensures CommitterDateAfter(start, trace) != start ==>
      exists op <- trace :: op.SetCommitterDate? && op.date == CommitterDateAfter(start, trace)
  {
    if trace != [] && !trace[|trace| - 1].SetCommitterDate? {
      var front := trace[..|trace| - 1];
      CommitterDateUnset(start, front);
      assert forall op <- front :: op in trace;
    }
  }

  /** The environment after two runs of requests is the environment after
      the second, started from the environment after the first. */
  lemma {:induction false} CommitterDateAfterAppend(start: Option<string>, a: seq<Op>, b: seq<Op>)
    ensures CommitterDateAfter(start, a + b) == CommitterDateAfter(CommitterDateAfter(start, a), b)
  {
    if b == [] {
      assert a + b == a;
    } else {
      assert (a + b)[..|a + b| - 1] == a + b[..|b| - 1];
      CommitterDateAfterAppend(start, a, b[..|b| - 1]);
    }
  }

  /** A request that throws right after a run of requests that all went
      through: when they open `plan`, that is where the plan stops. */
  lemma FailsAfter(done: seq<Op>, op: Op, plan: seq<Op>, fails: Op -> bool)
    requires done + [op] <= plan
    requires Verdict(done, fails) == Pass && Fails(fails, op)
    ensures Issued(plan, fails) == done + [op]
    ensures Verdict(plan, fails) == Fail(CommandFailed(op))
  {
    var rest := plan[|done| + 1..];
    assert plan == done + ([op] + rest);
    IssuedAppendPass(done, [op] + rest, fails);
    VerdictPass(done, fails);
  }

  /** A group of requests `g` run right after a run `done` that went
      through, when the two open `plan`: a throwing group ends the plan
      where the group stops; a group that goes through extends the run. */
  lemma GroupAfter(done: seq<Op>, g: seq<Op>, plan: seq<Op>, fails: Op -> bool)
    requires done + g <= plan
    requires Verdict(done, fails) == Pass
    ensures Verdict(g, fails).Fail? ==>
      Issued(plan, fails) == done + Issued(g, fails) && Verdict(plan, fails) == Verdict(g, fails)
    ensures Verdict(g, fails) == Pass ==> Verdict(done + g, fails) == Pass
  {
    var rest := plan[|done + g|..];
    assert plan == done + (g + rest);
    IssuedAppendPass(done, g + rest, fails);
    IssuedAppendPass(done, g, fails);
    if Verdict(g, fails).Fail? {
      IssuedAppendFail(g, rest, fails);
    }
  }

  /** `GroupAfter` in terms of a trace that started at `start`: the trace
      after the group is the plan's issued prefix when the group throws, and
      the extended run when it goes through. */
  lemma TraceAfterGroup(start: seq<Op>, done: seq<Op>, g: seq<Op>, plan: seq<Op>, fails: Op -> bool, trace: seq<Op>)
    requires done + g <= plan
    requires Verdict(done, fails) == Pass
    requires trace == start + done + Issued(g, fails)
    ensures Verdict(g, fails).Fail? ==>
      trace == start + Issued(plan, fails) && Verdict(plan, fails) == Verdict(g, fails)
    ensures Verdict(g, fails) == Pass ==>
      trace == start + (done + g) && Verdict(done + g, fails) == Pass
  {
    GroupAfter(done, g, plan, fails);
    VerdictPass(g, fails);
    AppendAssoc(start, done, Issued(g, fails));
  }

  /** Two requests in a row: the second runs only if the first went
      through. */
  lemma OutcomeOfTwo(a: Op, b: Op, fails: Op -> bool)
    ensures Issued([a, b], fails) == if Fails(fails, a) then [a] else [a, b]
    ensures Verdict([a, b], fails) ==
      if Fails(fails, a) then Fail(CommandFailed(a))
      else if Fails(fails, b) then Fail(CommandFailed(b))
      else Pass
  {
    assert [a, b][1..] == [b] && [b][1..] == [];
    assert Issued([b], fails) == [b];
    assert Verdict([b], fails) == if Fails(fails, b) then Fail(CommandFailed(b)) else Pass;
  }

  /** Three requests in a row: each runs only if the ones before it went
      through. */
  lemma OutcomeOfThree(a: Op, b: Op, c: Op, fails: Op -> bool)
    ensures Issued([a, b, c], fails) ==
      if Fails(fails, a) then [a] else if Fails(fails, b) then [a, b] else [a, b, c]
    ensures Verdict([a, b, c], fails) ==
      if Fails(fails, a) then Fail(CommandFailed(a))
      else if Fails(fails, b) then Fail(CommandFailed(b))
      else if Fails(fails, c) then Fail(CommandFailed(c))
      else Pass
  {
    assert [a, b, c][1..] == [b, c] && [b, c][1..] == [c] && [c][1..] == [];
    assert Issued([c], fails) == [c];
    assert Issued([b, c], fails) == if Fails(fails, b) then [b] else [b, c];
    assert Verdict([c], fails) == if Fails(fails, c) then Fail(CommandFailed(c)) else Pass;
  }

  /** Four requests in a row. */
  lemma OutcomeOfFour(a: Op, b: Op, c: Op, d: Op, fails: Op -> bool)
    ensures Issued([a, b, c, d], fails) ==
      if Fails(fails, a) then [a] else if Fails(fails, b) then [a, b]
      else if Fails(fails, c) then [a, b, c] else [a, b, c, d]
    ensures Verdict([a, b, c, d], fails) ==
      if Fails(fails, a) then Fail(CommandFailed(a))
      else if Fails(fails, b) then Fail(CommandFailed(b))
      else if Fails(fails, c) then Fail(CommandFailed(c))
      else if Fails(fails, d) then Fail(CommandFailed(d))
      else Pass
  {
    assert [a, b, c, d][1..] == [b, c, d];
    OutcomeOfThree(b, c, d, fails);
  }

  /** A request that goes through extends a run that went through. */
  lemma PassesAfter(done: seq<Op>, op: Op, fails: Op -> bool)
    requires Verdict(done, fails) == Pass && !Fails(fails, op)
    ensures Verdict(done + [op], fails) == Pass
  {
    IssuedAppendPass(done, [op], fails);
  }

  /** The command line the cached config command opens: `git config` when
      the probe reports "unknown option" (an old git without `--local`),
      `git config --local` otherwise (GetGitConfigCommand). */
  function ConfigCommandFor(probeOutput: string): (cc: string)
    ensures cc == "git config" <==> Contains(probeOutput, "unknown option")
    ensures cc == "git config" || cc == "git config --local"
  {
    if Contains(probeOutput, "unknown option") then "git config" else "git config --local"
  }

  /** The probe GetGitConfigCommand runs, non-strict, before the first config request. */
  const ProbeCommand: string := "git config --local --get user.name"

  function Quoted(s: string): string
  {
    "\"" + s + "\""
  }

  function Placeholder(f: LogField): string
  {
    match f
    case Subject => "%s"
    case Date => "%ci"
    case AuthorName => "%an"
    case AuthorEmail => "%ae"
  }

  /** The command line GitService hands the process runner for `op`, `cc`
      being the cached config command; `None` for requests that do not go
      through GitService. */
  function GitCommand(op: Op, cc: string): Option<string>
  {
    if op.ThroughGitService() then Some(CommandLine(op, cc)) else None
  }

  /** The command line of a request that goes through GitService. */
  function CommandLine(op: Op, cc: string): string
    requires op.ThroughGitService()
  {
    match op
    case Checkout(b, force) =>
      if force then "git checkout -f " + Quoted(b) else "git checkout " + Quoted(b)
    case CheckoutAndCreateBranch(b) => "git checkout -f -b " + b
    case CheckoutAndCreateBranchFromSvn(b) =>
      "git checkout -b " + Quoted(b) + " " + Quoted("remotes/svn/" + b)
    case CherryPick(h) => "git cherry-pick " + h
    case CreateTag(t, rev, m) =>
      "git tag -a -m " + Quoted(EscapeQuotes(m)) + " " + Quoted(EscapeQuotes(t)) + " " + Quoted(EscapeQuotes(rev))
    case CreateTagFromSvnRemote(t, m) =>
      "git tag -a " + Quoted(EscapeQuotes(t)) + " -m " + Quoted(EscapeQuotes(m))
        + " $(git rev-list -n 1 " + Quoted("refs/remotes/" + EscapeQuotes(t)) + ")"
    case CreateTagWithCommit(t, c, m) =>
      "git tag -a " + Quoted(EscapeQuotes(t)) + " " + EscapeQuotes(c) + " -m " + Quoted(EscapeQuotes(m))
    case DeleteBranch(b, remote) => "git branch -D " + (if remote then "-r" else "") + " " + Quoted(b)
    case Fetch => "git svn fetch"
    case GarbageCollect => "git gc"
    case GetBranchTrackInfo(b) => "git branch --track " + Quoted(b) + " " + Quoted("remotes/svn/" + b)
    case GetCommitInfo(f, rev) =>
      "git log -1 --pretty=format:'" + Placeholder(f) + "' " + Quoted(EscapeQuotes(rev))
    case GetConfigValue(k) => cc + " --get " + k
    case ListLocalBranches => "git branch -l --no-color"
    case ListRemoteBranches => "git branch -r --no-color"
    case ListTagRefs(p) => "git for-each-ref --format=\"%(refname:short) %(objectname)\" " + p
    case GetWorkingDirectoryStatus => "git status --porcelain --untracked-files=no"
    case RebaseBranch(rb) => "git rebase " + Quoted("remotes/svn/" + rb)
    case RunCommand(c) => c
    case SetAuthorsFile(f) => cc + " svn.authorsfile " + f
    case SetConfigValue(k, v) => cc + " " + k + " " + Quoted(EscapeQuotes(v))
    case SetUserEmail(e) => cc + " user.email " + Quoted(EscapeQuotes(e))
    case SetUserName(n) => cc + " user.name " + Quoted(EscapeQuotes(n))
    case UnsetConfigValue(k) => cc + " --unset " + k
  }

  /** `Checkout` adds `-f` exactly when forced. */
  lemma CheckoutForceFlag(b: string, force: bool)
    ensures StartsWith(GitCommand(Checkout(b, force), "").value, "git checkout -f ") <==> force
  {
    var line := GitCommand(Checkout(b, force), "").value;
    if !force {
      assert line[13] == '"';
    }
  }

  /** `DeleteBranch` adds `-r` exactly when the branch is a remote one. */
  lemma DeleteBranchRemoteFlag(b: string, remote: bool)
    ensures StartsWith(GitCommand(DeleteBranch(b, remote), "").value, "git branch -D -r ") <==> remote
  {
    var line := GitCommand(DeleteBranch(b, remote), "").value;
    if !remote {
      assert line[14] == ' ';
    }
  }

  /** The commit getters ask git for the requested field only. */
  lemma CommitInfoFormat(f: LogField, rev: string)
    ensures StartsWith(GitCommand(GetCommitInfo(f, rev), "").value, "git log -1 --pretty=format:'" + Placeholder(f) + "' ")
  {
  }

  /** A text that ends up inside double quotes on a tag or config command
      cannot close them early: every `"` in it is escaped. */
  lemma QuotedArgumentIsClosed(s: string)
    ensures forall i :: 0 <= i < |EscapeQuotes(s)| && EscapeQuotes(s)[i] == '"' ==>
      i > 0 && EscapeQuotes(s)[i - 1] == '\\'
  {
    EscapeQuotesPerChar(s);
    EscapedQuotesPreceded(s);
  }

  /** The listing cleanup GitService applies to each line of `git branch`:
      stars removed, then trimmed. */
  function CleanBranchLine(line: string): (r: string)
    ensures '*' !in r
    ensures r == [] || (!IsWhiteSpace(r[0]) && !IsWhiteSpace(r[|r| - 1]))
  {
    var unstarred := ReplaceAll(line, "*", "");
    NoStarAfterReplace(line);
    StripSlice(unstarred, IsWhiteSpace);
    Trim(unstarred)
  }

  lemma NoStarAfterReplace(line: string)
    ensures '*' !in ReplaceAll(line, "*", "")
  {
    ReplaceCharIsEach(line, '*', "");
    NoCharAfterReplaceEach(line, '*');
  }

  lemma {:induction false} NoCharAfterReplaceEach(s: string, c: char)
    ensures c !in ReplaceEach(s, c, "")
  {
    if s != [] {
      NoCharAfterReplaceEach(s[1..], c);
    }
  }

  /** GetLocalBranches / GetRemoteBranches: the output split on `\n`, each
      line cleaned, empty lines dropped. */
  function ParseBranchList(output: string): seq<string>
  {
    Filter(Map(Split(output, '\n'), CleanBranchLine), IsNonEmpty)
  }

  /** Every listed branch is a non-empty, trimmed name without a star. */
  lemma ParseBranchListEntries(output: string)
    ensures forall b <- ParseBranchList(output) ::
      b != [] && '*' !in b && !IsWhiteSpace(b[0]) && !IsWhiteSpace(b[|b| - 1])
  {
    var cleaned := Map(Split(output, '\n'), CleanBranchLine);
    FilterMembers(cleaned, IsNonEmpty);
    forall b <- ParseBranchList(output)
      ensures b != [] && '*' !in b && !IsWhiteSpace(b[0]) && !IsWhiteSpace(b[|b| - 1])
    {
      var i :| 0 <= i < |cleaned| && cleaned[i] == b;
      var line := Split(output, '\n')[i];
      assert b == CleanBranchLine(line);
    }
  }

  /** Every line that is not blank once cleaned is listed. */
  lemma ParseBranchListKeeps(output: string, line: string)
    requires line in Split(output, '\n') && CleanBranchLine(line) != []
    ensures CleanBranchLine(line) in ParseBranchList(output)
  {
    var lines := Split(output, '\n');
    var i :| 0 <= i < |lines| && lines[i] == line;
    assert Map(lines, CleanBranchLine)[i] == CleanBranchLine(line);
    FilterMembers(Map(lines, CleanBranchLine), IsNonEmpty);
  }

  /** The listing keeps the order of git's output. */
  lemma ParseBranchListOrder(output: string)
    ensures IsSubsequence(ParseBranchList(output), Map(Split(output, '\n'), CleanBranchLine))
  {
    FilterIsSubsequence(Map(Split(output, '\n'), CleanBranchLine), IsNonEmpty);
  }

  /** GetTagsListWithHashes: the output split on `\n` and `\r`, empty entries removed. */
  function ParseTagRefs(output: string): seq<string>
  {
    Filter(SplitAny(output, {'\n', '\r'}), IsNonEmpty)
  }

  /** Every listed line is non-empty and holds no line break. */
  lemma ParseTagRefsLines(output: string)
    ensures forall line <- ParseTagRefs(output) :: line != [] && '\n' !in line && '\r' !in line
  {
    var parts := SplitAny(output, {'\n', '\r'});
    SplitAnyFields(output, {'\n', '\r'});
    FilterMembers(parts, IsNonEmpty);
    forall line <- ParseTagRefs(output) ensures line != [] && '\n' !in line && '\r' !in line {
      var i :| 0 <= i < |parts| && parts[i] == line;
      assert forall j :: 0 <= j < |parts[i]| ==> parts[i][j] !in {'\n', '\r'};
    }
  }

  /** Nothing of the output but the line breaks is lost. */
  lemma ParseTagRefsKeepsText(output: string)
    ensures Concat(ParseTagRefs(output)) == Filter(output, ch => ch !in {'\n', '\r'})
  {
    var breaks := {'\n', '\r'};
    ConcatNonEmpty(SplitAny(output, breaks));
    ConcatSplit(output, breaks);
    FilterExt(output, ch => ch !in breaks, ch => ch !in {'\n', '\r'});
  }

  predicate IsHexDigit(c: char)
  {
    ('0' <= c <= '9') || ('a' <= c <= 'f') || ('A' <= c <= 'F')
  }

  /** A SHA-1 commit hash: 40 hexadecimal digits. */
  predicate IsSha1(h: string)
  {
    |h| == 40 && forall c <- h :: IsHexDigit(c)
  }

  /** `IsHexadecimal`: scans the characters and stops at the first non-hex one. */
  method IsHexadecimal(hash: string) returns (b: bool)
    ensures b <==> forall c <- hash :: IsHexDigit(c)
  {
    var i := 0;
    while i < |hash|
      invariant 0 <= i <= |hash|
      invariant forall k :: 0 <= k < i ==> IsHexDigit(hash[k])
    {
      if !IsHexDigit(hash[i]) {
        return false;
      }
      i := i + 1;
    }
    return true;
  }

  /** `IsValidSha1Hash`: present, non-empty, 40 characters, all hexadecimal. */
  method IsValidSha1Hash(hash: Option<string>) returns (b: bool)
    ensures b <==> hash.Some? && IsSha1(hash.value)
  {
    if IsNullOrEmpty(hash) || |hash.value| != 40 {
      return false;
    }
    b := IsHexadecimal(hash.value);
  }
}
