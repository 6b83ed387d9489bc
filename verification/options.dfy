/** MigrationOptions.cs and the command flags the argument parser fills in.
    A `null` reference is `None`. */
module Options {
  import opened Wrappers
  import opened Text

  /** The option record. `Exclude` is never set to null by anything in the
      program, so it is a plain sequence. */
  datatype MigrationOptions = MigrationOptions(
    authors: Option<string>,
    branches: Option<seq<string>>,
    emailDomain: string,
    exclude: seq<string>,
    metadata: bool,
    noMinimizeUrl: bool,
    outputDirectory: Option<string>,
    rebaseBranch: Option<string>,
    revision: Option<string>,
    rootIsTrunk: bool,
    svnRepoUrl: Option<string>,
    tags: Option<seq<string>>,
    trunk: Option<string>,
    username: Option<string>,
    verbose: bool)

  /** What the user asked the program to do besides a plain conversion. */
  datatype MigrationCommands = MigrationCommands(rebase: bool, createAuthorsFile: bool, rebaseBranch: bool)

  /** A freshly constructed MigrationOptions: the property initialisers give
      empty branch, tag and exclude lists and the `example.com` mail domain;
      every other reference is null and every flag false. */
  function ClassDefaults(): (o: MigrationOptions)
    ensures o.branches == Some([]) && o.tags == Some([]) && o.exclude == []
    ensures o.emailDomain == "example.com"
    ensures o.trunk.None? && o.authors.None? && o.username.None? && o.revision.None? && o.rebaseBranch.None?
    ensures !o.metadata && !o.noMinimizeUrl && !o.rootIsTrunk && !o.verbose
    ensures o.svnRepoUrl.None? && o.outputDirectory.None?
  {
    MigrationOptions(
      authors := None, branches := Some([]), emailDomain := "example.com", exclude := [],
      metadata := false, noMinimizeUrl := false, outputDirectory := None, rebaseBranch := None,
      revision := None, rootIsTrunk := false, svnRepoUrl := None, tags := Some([]), trunk := None,
      username := None, verbose := false)
  }

  /** `ExtractRepoName` behind `GetSvnRepoName`. `absolutePath` is what
      `Uri.TryCreate(url, UriKind.Absolute)` yields as `AbsolutePath`, or
      `None` when the URL is not absolute. A null or empty URL and a
      non-absolute one give the empty name; otherwise the name is the last
      `/`-separated segment of the path once its outer slashes are trimmed. */
  function ExtractRepoName(svnRepoUrl: Option<string>, absolutePath: Option<string>): (name: string)
    ensures IsNullOrEmpty(svnRepoUrl) || absolutePath.None? ==> name == ""
    ensures !IsNullOrEmpty(svnRepoUrl) && absolutePath.Some? ==>
      var path := TrimChar(absolutePath.value, '/');
      && '/' !in name
      && |name| <= |path| && name == path[|path| - |name|..]
      && (|name| < |path| ==> path[|path| - |name| - 1] == '/')
  {
    if IsNullOrEmpty(svnRepoUrl) then ""
    else if absolutePath.Some? then
      LastSegmentSuffix(TrimChar(absolutePath.value, '/'), '/');
      LastSegment(TrimChar(absolutePath.value, '/'), '/')
    else ""
  }

  /** For an absolute URL whose path is `/dirs/segment/`, the repository
      name is `segment`: slashes around the path do not matter. */
  lemma ExtractRepoNameOfPath(url: string, dirs: string, segment: string)
    requires url != ""
    requires dirs != [] && dirs[0] != '/'
    requires segment != [] && '/' !in segment
    ensures ExtractRepoName(Some(url), Some(['/'] + dirs + ['/'] + segment + ['/'])) == segment
  {
    var inner := dirs + ['/'] + segment;
    var path := ['/'] + inner + ['/'];
    assert path == ['/'] + dirs + ['/'] + segment + ['/'];
    assert inner[0] == dirs[0] && inner[|inner| - 1] == segment[|segment| - 1];
    TrimOuterSlashes(inner);
    LastSegmentAfter(dirs, '/', segment);
    var name := ExtractRepoName(Some(url), Some(path));
    assert name == segment;
  }

  /** Trimming one slash from each end of a path that has no more of them. */
  lemma TrimOuterSlashes(x: string)
    requires x != [] && x[0] != '/' && x[|x| - 1] != '/'
    ensures TrimChar(['/'] + x + ['/'], '/') == x
  {
    var s := ['/'] + x + ['/'];
    assert s[1..] == x + ['/'];
    assert StripStart(s, c => c == '/') == x + ['/'];
    assert (x + ['/'])[..|x|] == x;
    assert StripEnd(x + ['/'], c => c == '/') == x;
  }
}
