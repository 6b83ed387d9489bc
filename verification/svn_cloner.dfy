/** Actions/SvnCloner.cs: `git svn init` with the repository layout, the
    authors file when one is given, then `git svn fetch` with the revision
    range and the ignore-paths expression built from the layout and the
    exclusions. */
module SvnCloner {
  import opened Wrappers
  import opened Seqs
  import opened Text
  import opened GitOps
  import opened Gateway
  import opened Options

  /** The repository URL as interpolated into a command (`null` prints as
      nothing). */
  function Url(o: MigrationOptions): string
  {
    o.svnRepoUrl.GetOr("")
  }

  /** A layout list as the step uses it: an empty list stands for the
      standard directory, a missing (`null`) one for none at all. */
  function Layout(dirs: Option<seq<string>>, standard: string): seq<string>
  {
    match dirs
    case None => []
    case Some(xs) => if xs == [] then [standard] else xs
  }

  function TagFlag(tag: string): string
  {
    "-t " + tag + " "
  }

  function BranchFlag(branch: string): string
  {
    "-b " + branch + " "
  }

  /** The options every init command carries, whatever the layout. */
  function InitOptions(o: MigrationOptions): string
  {
    "git svn init --prefix=svn/ "
    + (if o.username.Some? then "--username='" + o.username.value + "' " else "")
    + (if o.metadata then "" else "--no-metadata ")
    + (if o.noMinimizeUrl then "--no-minimize-url " else "")
  }

  /** The init command: with the root as trunk, the URL is the trunk and no
      layout is given; otherwise the trunk, one `-t` per tag directory, one
      `-b` per branch directory, then the URL. */
  function InitCommand(o: MigrationOptions): string
  {
    if o.rootIsTrunk then InitOptions(o) + "--trunk='" + Url(o) + "'"
    else
      InitOptions(o)
      + (if o.trunk.Some? then "--trunk " + o.trunk.value + " " else "")
      + FlatMap(Layout(o.tags, "tags"), TagFlag)
      + FlatMap(Layout(o.branches, "branches"), BranchFlag)
      + Url(o)
  }

  /** `-r a:b`: a revision without `:` runs up to `HEAD`; fields after the
      second are ignored. */
  function RevisionRange(revision: string): string
  {
    var range := Split(revision, ':');
    var bounds := if |range| < 2 then [range[0], "HEAD"] else range;
    "-r " + bounds[0] + ":" + bounds[1] + " "
  }

  /** The pattern of the entries under a tag or branch directory. */
  function DirPattern(dir: string): seq<string>
  {
    [dir + "[/][^/]+[/]"]
  }

  /** The layout alternatives of the ignore-paths expression: none with
      the root as trunk; otherwise the trunk, then each tag and branch
      directory (defaults included). */
  function LayoutPatterns(o: MigrationOptions): seq<string>
  {
    if o.rootIsTrunk then []
    else
      (if o.trunk.Some? then [o.trunk.value + "[/]"] else [])
      + FlatMap(Layout(o.tags, "tags"), DirPattern)
      + FlatMap(Layout(o.branches, "branches"), DirPattern)
  }

  /** The `--ignore-paths` expression: a layout alternative, then an
      exclusion. */
  function IgnorePaths(o: MigrationOptions): string
  {
    "^(?:" + Join(LayoutPatterns(o), "|") + ")(?:" + Join(o.exclude, "|") + ")"
  }

  /** The fetch command. */
  function FetchCommand(o: MigrationOptions): string
  {
    "git svn fetch "
    + (if !IsNullOrEmpty(o.revision) then RevisionRange(o.revision.value) else "")
    + (if |o.exclude| > 0 then "--ignore-paths='" + IgnorePaths(o) + "' " else "")
  }

  /** The requests `Run` makes: init, the authors file when one is named,
      fetch. */
  function Plan(o: MigrationOptions): seq<Op>
  {
    [RunCommand(InitCommand(o))]
    + (if !IsNullOrEmpty(o.authors) then [SetAuthorsFile(o.authors.value)] else [])
    + [RunCommand(FetchCommand(o))]
  }

  /** The `foreach` appending one flag per directory to the command. */
  method AppendFlags(cmd: string, dirs: seq<string>, flag: string -> string) returns (r: string)
    ensures r == cmd + FlatMap(dirs, flag)
  {
    r := cmd;
    var i := 0;
    while i < |dirs|
      invariant 0 <= i <= |dirs|
      invariant r == cmd + FlatMap(dirs[..i], flag)
    {
      FlatMapSnoc(dirs, i, flag);
      AppendAssoc(cmd, FlatMap(dirs[..i], flag), flag(dirs[i]));
      r := r + flag(dirs[i]);
      i := i + 1;
    }
    assert dirs[..i] == dirs;
  }

  /** The `foreach` adding one pattern per directory to the `regex` list. */
  method AddPatterns(regex: seq<string>, dirs: seq<string>) returns (r: seq<string>)
    ensures r == regex + FlatMap(dirs, DirPattern)
  {
    r := regex;
    var i := 0;
    while i < |dirs|
      invariant 0 <= i <= |dirs|
      invariant r == regex + FlatMap(dirs[..i], DirPattern)
    {
      FlatMapSnoc(dirs, i, DirPattern);
      AppendAssoc(regex, FlatMap(dirs[..i], DirPattern), DirPattern(dirs[i]));
      r := r + [dirs[i] + "[/][^/]+[/]"];
      i := i + 1;
    }
    assert dirs[..i] == dirs;
  }

  /** The first half of `Run`: the init command, built piece by piece. */
  method BuildInitCommand(o: MigrationOptions) returns (cmd: string)
    ensures cmd == InitCommand(o)
  {
    cmd := "git svn init --prefix=svn/ ";
    cmd := cmd + if o.username.Some? then "--username='" + o.username.value + "' " else "";
    cmd := cmd + if o.metadata then "" else "--no-metadata ";
    cmd := cmd + if o.noMinimizeUrl then "--no-minimize-url " else "";
    if o.rootIsTrunk {
      cmd := cmd + "--trunk='" + Url(o) + "'";
    } else {
      cmd := cmd + if o.trunk.Some? then "--trunk " + o.trunk.value + " " else "";
      cmd := AppendFlags(cmd, Layout(o.tags, "tags"), TagFlag);
      cmd := AppendFlags(cmd, Layout(o.branches, "branches"), BranchFlag);
      cmd := cmd + Url(o);
    }
  }

  /** The second half of `Run`: the fetch command, with the `regex` list
      built when there are exclusions. */
  method BuildFetchCommand(o: MigrationOptions) returns (cmd: string)
    ensures cmd == FetchCommand(o)
  {
    cmd := "git svn fetch ";
    if !IsNullOrEmpty(o.revision) {
      var range := Split(o.revision.value, ':');
      if |range| < 2 {
        range := [range[0], "HEAD"];
      }
      var part := "-r " + range[0] + ":" + range[1] + " ";
      cmd := cmd + part;
    }
    if |o.exclude| > 0 {
      var regex: seq<string> := [];
      if !o.rootIsTrunk {
        if o.trunk.Some? {
          regex := regex + [o.trunk.value + "[/]"];
        }
        regex := AddPatterns(regex, Layout(o.tags, "tags"));
        regex := AddPatterns(regex, Layout(o.branches, "branches"));
      }
      assert regex == LayoutPatterns(o);
      var combined := "^(?:" + Join(regex, "|") + ")(?:" + Join(o.exclude, "|") + ")";
      var option := "--ignore-paths='" + combined + "' ";
      cmd := cmd + option;
    }
  }

  /** `Run`: init, the authors file when one is named, fetch; the first
      command that fails ends the step. */
  method Run(o: MigrationOptions, git: GitGateway) returns (res: Outcome<Error>)
    requires git.Valid()
    modifies git
    ensures old(git.probes) <= git.probes
    ensures git.Valid()
    ensures git.committerDate == old(git.committerDate)
    ensures git.Trace == old(git.Trace) + Issued(Plan(o), git.fails)
    ensures res == Verdict(Plan(o), git.fails)
  {
    var init := BuildInitCommand(o);
    var fetchOp := RunCommand(FetchCommand(o));
    if !IsNullOrEmpty(o.authors) {
      assert Plan(o) == [RunCommand(init), SetAuthorsFile(o.authors.value), fetchOp];
      OutcomeOfThree(RunCommand(init), SetAuthorsFile(o.authors.value), fetchOp, git.fails);
    } else {
      assert Plan(o) == [RunCommand(init), fetchOp];
      OutcomeOfTwo(RunCommand(init), fetchOp, git.fails);
    }
    res := git.Call(RunCommand(init));
    if res.Fail? {
      return;
    }
    ghost var done := [RunCommand(init)];
    if !IsNullOrEmpty(o.authors) {
      res := git.Call(SetAuthorsFile(o.authors.value));
      AppendAssoc(old(git.Trace), done, [SetAuthorsFile(o.authors.value)]);
      done := done + [SetAuthorsFile(o.authors.value)];
      if res.Fail? {
        return;
      }
    }
    var fetch := BuildFetchCommand(o);
    res := git.Call(RunCommand(fetch));
    AppendAssoc(old(git.Trace), done, [fetchOp]);
  }

  /** Every init command opens with git-svn's `svn/` prefix. */
  lemma InitPrefix(o: MigrationOptions)
    ensures StartsWith(InitCommand(o), "git svn init --prefix=svn/ ")
  {
    var p := "git svn init --prefix=svn/ ";
    assert InitCommand(o) == p + InitCommand(o)[|p|..];
  }

  /** With the root as trunk the layout options play no part: neither the
      init command nor the ignore-paths expression mentions them. */
  lemma RootIgnoresLayout(o: MigrationOptions, trunk: Option<string>, tags: Option<seq<string>>, branches: Option<seq<string>>)
    requires o.rootIsTrunk
    ensures InitCommand(o.(trunk := trunk, tags := tags, branches := branches)) == InitCommand(o)
    ensures FetchCommand(o.(trunk := trunk, tags := tags, branches := branches)) == FetchCommand(o)
    ensures IgnorePaths(o) == "^(?:)(?:" + Join(o.exclude, "|") + ")"
  {
  }

  /** An empty tag or branch list means the standard directory, in the
      init command and in the ignore-paths expression alike. */
  lemma EmptyListIsStandard(o: MigrationOptions)
    ensures InitCommand(o.(tags := Some([]))) == InitCommand(o.(tags := Some(["tags"])))
    ensures InitCommand(o.(branches := Some([]))) == InitCommand(o.(branches := Some(["branches"])))
    ensures FetchCommand(o.(tags := Some([]))) == FetchCommand(o.(tags := Some(["tags"])))
    ensures FetchCommand(o.(branches := Some([]))) == FetchCommand(o.(branches := Some(["branches"])))
  {
    SameLayout(o.(tags := Some([])), o.(tags := Some(["tags"])));
    SameLayout(o.(branches := Some([])), o.(branches := Some(["branches"])));
  }

  /** The commands depend on the layout lists only through `Layout`. */
  lemma SameLayout(o: MigrationOptions, p: MigrationOptions)
    requires p == o.(tags := p.tags, branches := p.branches)
    requires Layout(o.tags, "tags") == Layout(p.tags, "tags") && Layout(o.branches, "branches") == Layout(p.branches, "branches")
    ensures InitCommand(o) == InitCommand(p) && FetchCommand(o) == FetchCommand(p)
  {
    assert InitOptions(o) == InitOptions(p) && Url(o) == Url(p);
    assert LayoutPatterns(o) == LayoutPatterns(p);
  }

  /** One ignore-paths alternative per layout directory. */
  lemma PatternCount(o: MigrationOptions)
    requires !o.rootIsTrunk
    ensures |LayoutPatterns(o)| == (if o.trunk.Some? then 1 else 0) + |Layout(o.tags, "tags")| + |Layout(o.branches, "branches")|
  {
    FlatMapLength(Layout(o.tags, "tags"));
    FlatMapLength(Layout(o.branches, "branches"));
  }

  lemma {:induction false} FlatMapLength(dirs: seq<string>)
    ensures |FlatMap(dirs, DirPattern)| == |dirs|
  {
    if dirs != [] {
      FlatMapLength(dirs[..|dirs| - 1]);
    }
  }

  /** A revision without `:` is fetched up to `HEAD`. */
  lemma OpenRange(from: string)
    requires ':' !in from
    ensures RevisionRange(from) == "-r " + from + ":HEAD "
  {
    SplitWhole(from, ':');
  }

  /** `a:b` is fetched from `a` to `b`, and anything after a second `:` is
      dropped. */
  lemma ClosedRange(from: string, to: string, rest: Option<string>)
    requires ':' !in from && ':' !in to
    ensures var revision := from + ":" + to + (if rest.Some? then ":" + rest.value else "");
      RevisionRange(revision) == "-r " + from + ":" + to + " "
  {
    var tail := to + (if rest.Some? then ":" + rest.value else "");
    var revision := from + ":" + to + (if rest.Some? then ":" + rest.value else "");
    assert revision == from + [':'] + tail;
    SplitAtFirst(from, ':', tail);
    if rest.Some? {
      assert tail == to + [':'] + rest.value;
      SplitAtFirst(to, ':', rest.value);
    } else {
      assert tail == to;
      SplitWhole(to, ':');
    }
    var range := Split(revision, ':');
    assert range == [from] + Split(tail, ':');
    assert |range| >= 2 && range[0] == from && range[1] == to;
  }

  /** The commands run in order init, authors file, fetch; the authors file
      is set exactly when a non-empty one is named. */
  lemma PlanOrder(o: MigrationOptions)
    ensures Plan(o)[0] == RunCommand(InitCommand(o)) && Plan(o)[|Plan(o)| - 1] == RunCommand(FetchCommand(o))
    ensures forall f :: SetAuthorsFile(f) in Plan(o) <==> o.authors == Some(f) && f != ""
    ensures |Plan(o)| == if IsNullOrEmpty(o.authors) then 2 else 3
  {
  }
}
