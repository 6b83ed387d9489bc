/** TagFixer.cs: turns every SVN tag branch into an annotated git tag that
    carries the tagged commit's subject, author and date, then deletes the
    remote tag branch. The user identity is saved before and restored after,
    whatever happens. */
module TagFixer {
  import opened Wrappers
  import opened Seqs
  import opened Text
  import opened StringUtilities
  import opened GitOps
  import opened Gateway
  import opened SharedState

  /** The tag name, from the trimmed ref: every `svn/tags/` removed, trimmed again. */
  function TagName(ref: string): string
  {
    Trim(ReplaceAll(ref, "svn/tags/", ""))
  }

  /** `Environment.SetEnvironmentVariable` removes the variable when given an
      empty value. */
  function EnvValue(s: string): Option<string>
  {
    if s == "" then None else Some(s)
  }

  /** The committer-date override set while a tag is created. */
  function Override(output: Op -> string, ref: string): Option<string>
  {
    EnvValue(EscapeQuotes(CommitAnswer(output, Date, ref)))
  }

  /** What the four commit getters answered for a tag. */
  datatype Commit = Commit(subject: string, date: string, author: string, email: string)

  /** The commit as git describes it for the trimmed ref. */
  function CommitOf(output: Op -> string, ref: string): Commit
  {
    Commit(CommitAnswer(output, Subject, ref), CommitAnswer(output, Date, ref), CommitAnswer(output, AuthorName, ref), CommitAnswer(output, AuthorEmail, ref))
  }

  /** The four commit reads for the trimmed ref. */
  function ReadOps(ref: string): seq<Op>
  {
    [GetCommitInfo(Subject, ref), GetCommitInfo(Date, ref), GetCommitInfo(AuthorName, ref), GetCommitInfo(AuthorEmail, ref)]
  }

  /** The author of the tagged commit becomes the user name and email. */
  function IdentityOps(c: Commit): seq<Op>
  {
    [SetUserName(c.author), SetUserEmail(c.email)]
  }

  /** The tag created under the commit's date, `date` being
      GIT_COMMITTER_DATE as the step found it, then the remote tag branch
      deleted. */
  function DatedOps(override: Option<string>, subject: string, date: Option<string>, id: string, ref: string): seq<Op>
  {
    [SetCommitterDate(override), CreateTag(id, ref, subject), SetCommitterDate(date), DeleteBranch(ref, true)]
  }

  /** The writes made for one tag once its commit is read, `override`
      being the escaped commit date. */
  function WriteOps(c: Commit, override: Option<string>, date: Option<string>, id: string, ref: string): seq<Op>
  {
    IdentityOps(c) + DatedOps(override, c.subject, date, id, ref)
  }

  /** GIT_COMMITTER_DATE once a run of tag requests has ended with `v`: only
      a throwing `CreateTag` leaves the override of its tag in place, since
      the restore is not in the `finally` block. */
  function DateLeft(v: Outcome<Error>, output: Op -> string, date: Option<string>): Option<string>
  {
    if v.Fail? && v.error.CommandFailed? && v.error.op.CreateTag? then Override(output, v.error.op.revision) else date
  }

  /** The requests made for one tag. */
  function TagOps(output: Op -> string, date: Option<string>, tag: string): seq<Op>
  {
    RefOps(output, date, TagName(Trim(tag)), Trim(tag))
  }

  /** The requests made for one tag, given its trimmed ref and its name. */
  function RefOps(output: Op -> string, date: Option<string>, id: string, ref: string): seq<Op>
  {
    ReadOps(ref) + WriteOps(CommitOf(output, ref), Override(output, ref), date, id, ref)
  }

  /** The requests of the loop over the tags. */
  function Retag(tags: seq<string>, output: Op -> string, date: Option<string>): seq<Op>
  {
    FlatMap(tags, PerTag(output, date))
  }

  function PerTag(output: Op -> string, date: Option<string>): string -> seq<Op>
  {
    tag => TagOps(output, date, tag)
  }

  /** Restoring one saved identity key: set to its trimmed value, or unset
      when the saved value was blank. */
  function RestoreOp(key: string, value: string): (op: Op)
    ensures op.SetConfigValue? <==> !IsNullOrWhiteSpace(Some(value))
    ensures op.SetConfigValue? ==> op == SetConfigValue(key, Trim(value))
    ensures op.UnsetConfigValue? ==> op == UnsetConfigValue(key)
  {
    if IsNullOrWhiteSpace(Some(value)) then UnsetConfigValue(key) else SetConfigValue(key, Trim(value))
  }

  /** The two identity reads made before any tag. */
  const SavedReads: seq<Op> := [GetConfigValue("user.name"), GetConfigValue("user.email")]

  /** The `finally` block's requests, for the saved name and email. */
  function RestoreOps(name: string, email: string): seq<Op>
  {
    [RestoreOp("user.name", name), RestoreOp("user.email", email)]
  }

  /** The `finally` block's requests for the values git answered. */
  function Restore(output: Op -> string): seq<Op>
  {
    RestoreOps(output(GetConfigValue("user.name")), output(GetConfigValue("user.email")))
  }

  /** The `finally` block's requests: the restore when there are tags,
      nothing otherwise. */
  function Finally(tags: seq<string>, output: Op -> string, fails: Op -> bool): seq<Op>
  {
    if tags != [] then Issued(Restore(output), fails) else []
  }

  /** Everything `Run` issues: the saved reads, the tags up to the first
      request that throws, and the `finally` block, which runs even after a
      throw. */
  function Requests(tags: seq<string>, output: Op -> string, fails: Op -> bool, date: Option<string>): seq<Op>
  {
    SavedReads + Issued(Retag(tags, output, date), fails) + Finally(tags, output, fails)
  }

  /** How `Run` ends: an exception thrown by the restore replaces the one the
      loop threw. */
  function Ending(tags: seq<string>, output: Op -> string, fails: Op -> bool, date: Option<string>): Outcome<Error>
  {
    if tags != [] && Verdict(Restore(output), fails).Fail? then Verdict(Restore(output), fails)
    else Verdict(Retag(tags, output, date), fails)
  }

  /** Two of the commit getters, in order; a throw of the first skips the
      second. */
  method ReadTwo(git: GitGateway, first: LogField, second: LogField, ref: string) returns (res: Result<(string, string), Error>)
    requires git.Valid()
    modifies git
    ensures old(git.probes) <= git.probes
    ensures git.Valid()
    ensures git.Trace == old(git.Trace) + Issued([GetCommitInfo(first, ref), GetCommitInfo(second, ref)], git.fails)
    ensures res.Failure? ==> Verdict([GetCommitInfo(first, ref), GetCommitInfo(second, ref)], git.fails) == Fail(res.error)
    ensures res.Success? ==> Verdict([GetCommitInfo(first, ref), GetCommitInfo(second, ref)], git.fails) == Pass
    ensures res.Success? ==> res.value == (CommitAnswer(git.output, first, ref), CommitAnswer(git.output, second, ref))
    ensures git.committerDate == old(git.committerDate)
  {
    OutcomeOfTwo(GetCommitInfo(first, ref), GetCommitInfo(second, ref), git.fails);
    var x := git.GetCommitInfo(first, ref);
    if x.Failure? {
      return Failure(x.error);
    }
    var y := git.GetCommitInfo(second, ref);
    AppendAssoc(old(git.Trace), [GetCommitInfo(first, ref)], [GetCommitInfo(second, ref)]);
    if y.Failure? {
      return Failure(y.error);
    }
    res := Success((x.value, y.value));
  }

  /** The four commit getters, in order; the first that throws ends them. */
  method ReadCommit(git: GitGateway, ref: string) returns (res: Result<Commit, Error>)
    requires git.Valid()
    modifies git
    ensures old(git.probes) <= git.probes
    ensures git.Valid()
    ensures git.Trace == old(git.Trace) + Issued(ReadOps(ref), git.fails)
    ensures res.Failure? ==> Verdict(ReadOps(ref), git.fails) == Fail(res.error)
    ensures res.Success? ==> Verdict(ReadOps(ref), git.fails) == Pass
    ensures res.Failure? ==> res.error.CommandFailed? && res.error.op.GetCommitInfo?
    ensures res.Success? ==> res.value == CommitOf(git.output, ref)
    ensures git.committerDate == old(git.committerDate)
  {
    ghost var head := [GetCommitInfo(Subject, ref), GetCommitInfo(Date, ref)];
    ghost var tail := [GetCommitInfo(AuthorName, ref), GetCommitInfo(AuthorEmail, ref)];
    assert ReadOps(ref) == head + tail;
    OutcomeOfFour(GetCommitInfo(Subject, ref), GetCommitInfo(Date, ref), GetCommitInfo(AuthorName, ref), GetCommitInfo(AuthorEmail, ref), git.fails);
    var title := ReadTwo(git, Subject, Date, ref);
    if title.Failure? {
      IssuedAppendFail(head, tail, git.fails);
      return Failure(title.error);
    }
    IssuedAppendPass(head, tail, git.fails);
    VerdictPass(head, git.fails);
    var author := ReadTwo(git, AuthorName, AuthorEmail, ref);
    AppendAssoc(old(git.Trace), head, Issued(tail, git.fails));
    if author.Failure? {
      return Failure(author.error);
    }
    res := Success(Commit(title.value.0, title.value.1, author.value.0, author.value.1));
  }

  /** The user identity set to the commit's author. */
  method Impersonate(git: GitGateway, c: Commit) returns (res: Outcome<Error>)
    requires git.Valid()
    modifies git
    ensures old(git.probes) <= git.probes
    ensures git.Valid()
    ensures git.Trace == old(git.Trace) + Issued(IdentityOps(c), git.fails)
    ensures res == Verdict(IdentityOps(c), git.fails)
    ensures git.committerDate == old(git.committerDate)
  {
    OutcomeOfTwo(SetUserName(c.author), SetUserEmail(c.email), git.fails);
    res := git.Call(SetUserName(c.author));
    if res.Fail? {
      return;
    }
    res := git.Call(SetUserEmail(c.email));
    AppendAssoc(old(git.Trace), [SetUserName(c.author)], [SetUserEmail(c.email)]);
  }

  /** The date override around the tag creation, then the branch deletion.
      A throwing `CreateTag` skips the restore of the date. */
  method CreateDated(git: GitGateway, override: Option<string>, subject: string, id: string, ref: string, ghost date: Option<string>)
    returns (res: Outcome<Error>)
    requires git.Valid() && git.committerDate == date
    modifies git
    ensures old(git.probes) <= git.probes
    ensures git.Valid()
    ensures git.Trace == old(git.Trace) + Issued(DatedOps(override, subject, date, id, ref), git.fails)
    ensures res == Verdict(DatedOps(override, subject, date, id, ref), git.fails)
    ensures git.committerDate == if Fails(git.fails, CreateTag(id, ref, subject)) then override else date
  {
    OutcomeOfFour(SetCommitterDate(override), CreateTag(id, ref, subject), SetCommitterDate(date), DeleteBranch(ref, true), git.fails);
    var original := git.committerDate;
    res := git.Call(SetCommitterDate(override));
    res := git.Call(CreateTag(id, ref, subject));
    AppendAssoc(old(git.Trace), [SetCommitterDate(override)], [CreateTag(id, ref, subject)]);
    if res.Fail? {
      return;
    }
    res := git.Call(SetCommitterDate(original));
    AppendAssoc(old(git.Trace), [SetCommitterDate(override), CreateTag(id, ref, subject)], [SetCommitterDate(date)]);
    res := git.Call(DeleteBranch(ref, true));
    AppendAssoc(old(git.Trace), [SetCommitterDate(override), CreateTag(id, ref, subject), SetCommitterDate(date)], [DeleteBranch(ref, true)]);
  }

  /** The writes for one tag. */
  method WriteTag(git: GitGateway, c: Commit, id: string, ref: string, ghost date: Option<string>) returns (res: Outcome<Error>)
    requires git.Valid() && git.committerDate == date
    modifies git
    ensures old(git.probes) <= git.probes
    ensures git.Valid()
    ensures git.Trace == old(git.Trace) + Issued(WriteOps(c, EnvValue(EscapeQuotes(c.date)), date, id, ref), git.fails)
    ensures res == Verdict(WriteOps(c, EnvValue(EscapeQuotes(c.date)), date, id, ref), git.fails)
    ensures git.committerDate ==
      if Verdict(IdentityOps(c), git.fails) == Pass && Fails(git.fails, CreateTag(id, ref, c.subject))
      then EnvValue(EscapeQuotes(c.date)) else date
  {
    var escaped := EscapeQuotes(c.date);
    var override := if escaped == "" then None else Some(escaped);
    ghost var dated := DatedOps(override, c.subject, date, id, ref);
    res := Impersonate(git, c);
    if res.Fail? {
      IssuedAppendFail(IdentityOps(c), dated, git.fails);
      return;
    }
    IssuedAppendPass(IdentityOps(c), dated, git.fails);
    VerdictPass(IdentityOps(c), git.fails);
    res := CreateDated(git, override, c.subject, id, ref, date);
    AppendAssoc(old(git.Trace), IdentityOps(c), Issued(dated, git.fails));
  }

  /** One pass of the loop body, for the trimmed ref and the tag name. */
  method FixRef(git: GitGateway, id: string, ref: string, ghost date: Option<string>) returns (res: Outcome<Error>)
    requires git.Valid() && git.committerDate == date
    modifies git
    ensures old(git.probes) <= git.probes
    ensures git.Valid()
    ensures git.Trace == old(git.Trace) + Issued(RefOps(git.output, date, id, ref), git.fails)
    ensures res == Verdict(RefOps(git.output, date, id, ref), git.fails)
    ensures git.committerDate == DateLeft(res, git.output, date)
  {
    ghost var readOps := ReadOps(ref);
    ghost var c0 := CommitOf(git.output, ref);
    ghost var writeOps := WriteOps(c0, Override(git.output, ref), date, id, ref);
    var c := ReadCommit(git, ref);
    if c.Failure? {
      IssuedAppendFail(readOps, writeOps, git.fails);
      return Fail(c.error);
    }
    IssuedAppendPass(readOps, writeOps, git.fails);
    VerdictPass(readOps, git.fails);
    res := WriteTag(git, c.value, id, ref, date);
    AppendAssoc(old(git.Trace), readOps, Issued(writeOps, git.fails));
    WriteVerdict(c0, Override(git.output, ref), date, id, ref, git.fails);
  }

  /** One pass of the loop body: the ref trimmed, the tag name derived. */
  method FixTag(git: GitGateway, tag: string, ghost date: Option<string>) returns (res: Outcome<Error>)
    requires git.Valid() && git.committerDate == date
    modifies git
    ensures old(git.probes) <= git.probes
    ensures git.Valid()
    ensures git.Trace == old(git.Trace) + Issued(TagOps(git.output, date, tag), git.fails)
    ensures res == Verdict(TagOps(git.output, date, tag), git.fails)
    ensures git.committerDate == DateLeft(res, git.output, date)
  {
    var trimmedTag := Trim(tag);
    var id := Trim(ReplaceAll(trimmedTag, "svn/tags/", ""));
    res := FixRef(git, id, trimmedTag, date);
  }

  /** How the writes for one tag end: the identity writes, the tag
      creation and the branch deletion are the requests that can throw, and
      only a throwing `CreateTag` is the one of this tag. */
  lemma WriteVerdict(c: Commit, override: Option<string>, date: Option<string>, id: string, ref: string, fails: Op -> bool)
    ensures Verdict(WriteOps(c, override, date, id, ref), fails).Fail? ==>
      Verdict(WriteOps(c, override, date, id, ref), fails).error.CommandFailed?
    ensures (Verdict(WriteOps(c, override, date, id, ref), fails).Fail? &&
             Verdict(WriteOps(c, override, date, id, ref), fails).error.op.CreateTag?) <==>
      (Verdict(IdentityOps(c), fails) == Pass && Fails(fails, CreateTag(id, ref, c.subject)))
    ensures Verdict(WriteOps(c, override, date, id, ref), fails).Fail? &&
            Verdict(WriteOps(c, override, date, id, ref), fails).error.op.CreateTag? ==>
      Verdict(WriteOps(c, override, date, id, ref), fails).error.op == CreateTag(id, ref, c.subject)
  {
    var d := DatedOps(override, c.subject, date, id, ref);
    OutcomeOfFour(d[0], d[1], d[2], d[3], fails);
    assert IdentityOps(c)[1..] == [SetUserEmail(c.email)];
    if Verdict(IdentityOps(c), fails).Fail? {
      IssuedAppendFail(IdentityOps(c), d, fails);
    } else {
      IssuedAppendPass(IdentityOps(c), d, fails);
    }
  }

  /** One more tag adds its own requests at the end, and the requests of
      the first tags open those of all of them. */
  lemma RetagSnoc(tags: seq<string>, i: nat, output: Op -> string, date: Option<string>)
    requires i < |tags|
    ensures Retag(tags[..i + 1], output, date) == Retag(tags[..i], output, date) + TagOps(output, date, tags[i])
    ensures Retag(tags[..i + 1], output, date) <= Retag(tags, output, date)
  {
    FlatMapSnoc(tags, i, PerTag(output, date));
    FlatMapPrefix(tags, i + 1, PerTag(output, date));
  }

  /** The loop over the tags; the first request that throws ends it. */
  method RetagAll(git: GitGateway, tags: seq<string>, ghost date: Option<string>) returns (res: Outcome<Error>)
    requires git.Valid() && git.committerDate == date
    modifies git
    ensures old(git.probes) <= git.probes
    ensures git.Valid()
    ensures git.Trace == old(git.Trace) + Issued(Retag(tags, git.output, date), git.fails)
    ensures res == Verdict(Retag(tags, git.output, date), git.fails)
    ensures git.committerDate == DateLeft(res, git.output, date)
  {
    ghost var plan := Retag(tags, git.output, date);
    ghost var done: seq<Op> := [];
    var i := 0;
    while i < |tags|
      invariant 0 <= i <= |tags|
      invariant git.Valid() && git.committerDate == date
      invariant old(git.probes) <= git.probes
      invariant done == Retag(tags[..i], git.output, date)
      invariant git.Trace == old(git.Trace) + done
      invariant Verdict(done, git.fails) == Pass
    {
      ghost var g := TagOps(git.output, date, tags[i]);
      RetagSnoc(tags, i, git.output, date);
      var r := FixTag(git, tags[i], date);
      TraceAfterGroup(old(git.Trace), done, g, plan, git.fails, git.Trace);
      if r.Fail? {
        return r;
      }
      done := done + g;
      i := i + 1;
    }
    assert tags[..i] == tags;
    VerdictPass(plan, git.fails);
    res := Pass;
  }

  /** Restoring one saved key in the `finally` block. */
  method RestoreKey(git: GitGateway, key: string, value: string) returns (res: Outcome<Error>)
    requires git.Valid()
    modifies git
    ensures old(git.probes) <= git.probes
    ensures git.Valid()
    ensures git.Trace == old(git.Trace) + [RestoreOp(key, value)]
    ensures res == Verdict([RestoreOp(key, value)], git.fails)
    ensures git.committerDate == old(git.committerDate)
  {
    if !IsNullOrWhiteSpace(Some(value)) {
      res := git.Call(SetConfigValue(key, Trim(value)));
    } else {
      res := git.Call(UnsetConfigValue(key));
    }
  }

  /** The `finally` block: `user.name`, then `user.email`. */
  method RestoreIdentity(git: GitGateway, name: string, email: string) returns (res: Outcome<Error>)
    requires git.Valid()
    modifies git
    ensures old(git.probes) <= git.probes
    ensures git.Valid()
    ensures git.Trace == old(git.Trace) + Issued(RestoreOps(name, email), git.fails)
    ensures res == Verdict(RestoreOps(name, email), git.fails)
    ensures git.committerDate == old(git.committerDate)
  {
    ghost var first := [RestoreOp("user.name", name)];
    ghost var second := [RestoreOp("user.email", email)];
    assert RestoreOps(name, email) == first + second;
    res := RestoreKey(git, "user.name", name);
    if res.Fail? {
      IssuedAppendFail(first, second, git.fails);
      return;
    }
    res := RestoreKey(git, "user.email", email);
    IssuedAppendPass(first, second, git.fails);
    AppendAssoc(old(git.Trace), first, second);
  }

  /** The `finally` block, for the values read before the loop. */
  method RestoreIfTagged(git: GitGateway, tags: seq<string>, name: string, email: string) returns (res: Outcome<Error>)
    requires git.Valid()
    requires name == git.output(GetConfigValue("user.name")) && email == git.output(GetConfigValue("user.email"))
    modifies git
    ensures old(git.probes) <= git.probes
    ensures git.Valid()
    ensures git.Trace == old(git.Trace) + Finally(tags, git.output, git.fails)
    ensures res == if tags != [] then Verdict(Restore(git.output), git.fails) else Pass
    ensures git.committerDate == old(git.committerDate)
  {
    if |tags| > 0 {
      res := RestoreIdentity(git, name, email);
    } else {
      res := Pass;
    }
  }

  /** `Run`: the identity saved, the tags fixed, and (when there are tags)
      the identity restored even after a throw; an exception of the restore
      replaces the one of the loop. The tag list itself is left alone. */
  method Run(data: SharedData, git: GitGateway) returns (res: Outcome<Error>)
    requires git.Valid()
    modifies git
    ensures old(git.probes) <= git.probes
    ensures git.Valid()
    ensures git.Trace == old(git.Trace) + Requests(data.tags, git.output, git.fails, old(git.committerDate))
    ensures res == Ending(data.tags, git.output, git.fails, old(git.committerDate))
    ensures git.committerDate == DateLeft(Verdict(Retag(data.tags, git.output, old(git.committerDate)), git.fails), git.output, old(git.committerDate))
  {
    ghost var t0 := git.Trace;
    ghost var date := git.committerDate;
    ghost var retag := Issued(Retag(data.tags, git.output, date), git.fails);
    ghost var restore := Finally(data.tags, git.output, git.fails);
    var name := git.GetConfigValue("user.name");
    var email := git.GetConfigValue("user.email");
    AppendAssoc(t0, [GetConfigValue("user.name")], [GetConfigValue("user.email")]);
    assert git.Trace == t0 + SavedReads;
    res := RetagAll(git, data.tags, date);
    var restored := RestoreIfTagged(git, data.tags, name, email);
    if restored.Fail? {
      res := restored;
    }
    AppendAssoc(t0, SavedReads, retag);
    AppendAssoc(t0, SavedReads + retag, restore);
  }

  /** The saved identity is read first; with no tag nothing else is
      requested; with tags the restore of `user.name` follows the loop
      whether or not the loop threw. */
  lemma FinallyRestores(tags: seq<string>, output: Op -> string, fails: Op -> bool, date: Option<string>)
    ensures Requests(tags, output, fails, date)[..2] == SavedReads
    ensures tags == [] ==> Requests(tags, output, fails, date) == SavedReads && Ending(tags, output, fails, date) == Pass
    ensures tags != [] ==>
      var n := 2 + |Issued(Retag(tags, output, date), fails)|;
      n < |Requests(tags, output, fails, date)| &&
      Requests(tags, output, fails, date)[n] == RestoreOp("user.name", output(GetConfigValue("user.name")))
  {
    var retag := Issued(Retag(tags, output, date), fails);
    assert Requests(tags, output, fails, date) == SavedReads + (retag + Finally(tags, output, fails));
    if tags == [] {
      assert Retag(tags, output, date) == [];
    }
  }

  /** GIT_COMMITTER_DATE after the dated requests: the override when the
      tag creation throws, the saved value put back otherwise. */
  lemma DatedDate(override: Option<string>, subject: string, date: Option<string>, id: string, ref: string, fails: Op -> bool)
    ensures CommitterDateAfter(date, Issued(DatedOps(override, subject, date, id, ref), fails)) ==
      if Fails(fails, CreateTag(id, ref, subject)) then override else date
  {
    var d := DatedOps(override, subject, date, id, ref);
    OutcomeOfFour(d[0], d[1], d[2], d[3], fails);
    assert [d[0], d[1]][..1] == [d[0]];
    assert [d[0], d[1], d[2], d[3]][..3] == [d[0], d[1], d[2]];
  }

  /** GIT_COMMITTER_DATE after the writes for one tag. */
  lemma WriteDate(c: Commit, override: Option<string>, date: Option<string>, id: string, ref: string, fails: Op -> bool)
    ensures CommitterDateAfter(date, Issued(WriteOps(c, override, date, id, ref), fails)) ==
      if Verdict(IdentityOps(c), fails) == Pass && Fails(fails, CreateTag(id, ref, c.subject)) then override else date
  {
    var i := IdentityOps(c);
    var d := DatedOps(override, c.subject, date, id, ref);
    assert i[1..] == [i[1]];
    if Verdict(i, fails).Fail? {
      IssuedAppendFail(i, d, fails);
      CommitterDateUnset(date, Issued(i, fails));
    } else {
      IssuedAppendPass(i, d, fails);
      VerdictPass(i, fails);
      CommitterDateAfterAppend(date, i, Issued(d, fails));
      CommitterDateUnset(date, i);
      DatedDate(override, c.subject, date, id, ref, fails);
    }
  }

  /** The commit reads leave GIT_COMMITTER_DATE alone, and only a read can
      be the one that throws among them. */
  lemma ReadsKeepDate(ref: string, fails: Op -> bool, date: Option<string>)
    ensures CommitterDateAfter(date, Issued(ReadOps(ref), fails)) == date
    ensures Verdict(ReadOps(ref), fails).Fail? ==>
      Verdict(ReadOps(ref), fails).error.CommandFailed? && Verdict(ReadOps(ref), fails).error.op.GetCommitInfo?
  {
    var r := ReadOps(ref);
    OutcomeOfFour(r[0], r[1], r[2], r[3], fails);
    CommitterDateUnset(date, Issued(r, fails));
  }

  /** For one tag, GIT_COMMITTER_DATE as the requests made leave it is the
      value `DateLeft` names: the tag's override after a throwing
      `CreateTag`, the starting value otherwise. */
  lemma RefDateLeft(output: Op -> string, fails: Op -> bool, date: Option<string>, id: string, ref: string)
    ensures CommitterDateAfter(date, Issued(RefOps(output, date, id, ref), fails)) ==
      DateLeft(Verdict(RefOps(output, date, id, ref), fails), output, date)
  {
    var r := ReadOps(ref);
    var c := CommitOf(output, ref);
    var w := WriteOps(c, Override(output, ref), date, id, ref);
    assert RefOps(output, date, id, ref) == r + w;
    ReadsKeepDate(ref, fails, date);
    if Verdict(r, fails).Fail? {
      IssuedAppendFail(r, w, fails);
    } else {
      IssuedAppendPass(r, w, fails);
      VerdictPass(r, fails);
      CommitterDateAfterAppend(date, r, Issued(w, fails));
      WriteDate(c, Override(output, ref), date, id, ref, fails);
      WriteVerdict(c, Override(output, ref), date, id, ref, fails);
    }
  }

  /** The partner of the date `RetagAll` ensures: replaying the
      `SetCommitterDate` requests the loop made gives the value `DateLeft`
      names for the loop's outcome. */
  lemma {:induction false} RetagDateLeft(tags: seq<string>, output: Op -> string, fails: Op -> bool, date: Option<string>)
    ensures CommitterDateAfter(date, Issued(Retag(tags, output, date), fails)) ==
      DateLeft(Verdict(Retag(tags, output, date), fails), output, date)
  {
    if tags != [] {
      var front := tags[..|tags| - 1];
      var t := tags[|tags| - 1];
      var a := Retag(front, output, date);
      var g := TagOps(output, date, t);
      assert Retag(tags, output, date) == a + g;
      RetagDateLeft(front, output, fails, date);
      if Verdict(a, fails).Fail? {
        IssuedAppendFail(a, g, fails);
      } else {
        IssuedAppendPass(a, g, fails);
        VerdictPass(a, fails);
        CommitterDateAfterAppend(date, a, Issued(g, fails));
        RefDateLeft(output, fails, date, TagName(Trim(t)), Trim(t));
      }
    }
  }
}
