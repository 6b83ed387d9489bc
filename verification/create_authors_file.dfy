/** Actions/CreateAuthorsFile.cs: the `--createauthors` mode. The SVN log
    is exported to a temporary file; the author of every revision line is
    collected, and one mapping line per distinct author, in ordinal order,
    is written to the authors file. */
module CreateAuthorsFile {
  import opened Wrappers
  import opened Seqs
  import opened Text
  import opened GitOps
  import opened Gateway
  import opened Options
  import ArgumentParser

  const UrlRequired: string := "SVN repository URL is required."
  const ExportFailed: string := "Failed to get authors from SVN repository."

  /** `GetAuthorsFile`: a rooted `Authors` path is used as it is, a relative
      one is taken under the application directory, and without one the
      default `authors.txt` there is used. */
  function AuthorsFilePath(authors: Option<string>, baseDirectory: string): (path: string)
    ensures authors.Some? && IsPathRooted(authors.value) ==> path == authors.value
    ensures authors.Some? && !IsPathRooted(authors.value) && baseDirectory != [] ==>
      |path| >= |baseDirectory| + |authors.value| &&
      path[..|baseDirectory|] == baseDirectory && path[|path| - |authors.value|..] == authors.value
    ensures authors.None? && baseDirectory != [] ==>
      |path| >= |baseDirectory| + |ArgumentParser.DefaultAuthorsFile| &&
      path[..|baseDirectory|] == baseDirectory && path[|path| - |ArgumentParser.DefaultAuthorsFile|..] == ArgumentParser.DefaultAuthorsFile
  {
    match authors
    case Some(a) => if IsPathRooted(a) then a else Combine(baseDirectory, a)
    case None => Combine(baseDirectory, ArgumentParser.DefaultAuthorsFile)
  }

  /** `File.ReadAllLines`: the lines of the exported log. A `\r\n` pair
      leaves an empty field between its two breaks, which no later stage
      keeps. */
  function LogLines(content: string): seq<string>
  {
    SplitAny(content, {'\n', '\r'})
  }

  /** `Regex.IsMatch(line, @"^r\d+")`. */
  predicate IsRevisionLine(line: string)
  {
    |line| >= 2 && line[0] == 'r' && IsDigit(line[1])
  }

  /** `line.Split('|')[1].Trim()`; `None` where there is no second field
      and the indexing throws. */
  function AuthorOf(line: string): Option<string>
  {
    var fields := Split(line, '|');
    if |fields| < 2 then None else Some(Trim(fields[1]))
  }

  /** The authors of the revision lines, in log order; `None` as soon as
      one revision line has no `|`. */
  function RevisionAuthors(lines: seq<string>): Option<seq<string>>
  {
    if lines == [] then Some([])
    else
      match RevisionAuthors(lines[..|lines| - 1])
      case None => None
      case Some(front) =>
        var line := lines[|lines| - 1];
        if !IsRevisionLine(line) then Some(front)
        else match AuthorOf(line)
          case None => None
          case Some(a) => Some(front + [a])
  }

  /** LINQ `Distinct`: the first occurrence of each value, in order. */
  function Distinct(xs: seq<string>): seq<string>
  {
    if xs == [] then []
    else Distinct(xs[..|xs| - 1]) + (if xs[|xs| - 1] in xs[..|xs| - 1] then [] else [xs[|xs| - 1]])
  }

  /** One step of the sort: `x` goes before the first element not below it. */
  function Insert(xs: seq<string>, x: string): seq<string>
  {
    if xs == [] then [x]
    else if Below(xs[0], x) then [xs[0]] + Insert(xs[1..], x)
    else [x] + xs
  }

  /** `OrderBy(author => author)`, with ordinal comparison. */
  function SortAuthors(xs: seq<string>): seq<string>
  {
    if xs == [] then [] else Insert(SortAuthors(xs[..|xs| - 1]), xs[|xs| - 1])
  }

  /** The author pipeline: revision authors, distinct, non-empty, sorted;
      `None` when a revision line has no `|`. */
  function AuthorList(content: string): Option<seq<string>>
  {
    match RevisionAuthors(LogLines(content))
    case None => None
    case Some(authors) => Some(SortAuthors(Filter(Distinct(authors), IsNonEmpty)))
  }

  /** The line written for one author. */
  function MappingLine(author: string, emailDomain: string): string
  {
    author + " = " + author + " <" + author + "@" + emailDomain + ">"
  }

  function MappingLines(authors: seq<string>, emailDomain: string): seq<string>
  {
    Map(authors, a => MappingLine(a, emailDomain))
  }

  /** What the authors file holds once written: the mapping lines, or
      nothing when the pipeline throws after the writer has created it. */
  function FileLines(content: string, emailDomain: string): seq<string>
  {
    match AuthorList(content)
    case None => []
    case Some(authors) => MappingLines(authors, emailDomain)
  }

  /** The requests `Run` makes: none without a URL; otherwise the log
      logExport and, when it succeeds, the authors file write. */
  function Requests(o: MigrationOptions, baseDirectory: string, output: Op -> string, fails: Op -> bool): seq<Op>
  {
    if IsNullOrEmpty(o.svnRepoUrl) then []
    else
      var logExport := ExportSvnLog(o.svnRepoUrl.value);
      if Fails(fails, logExport) then [logExport]
      else [logExport, WriteAuthorsFile(AuthorsFilePath(o.authors, baseDirectory), FileLines(output(logExport), o.emailDomain))]
  }

  /** How `Run` ends: every failure inside the `try` is wrapped in a
      MigrationException. */
  function Ending(o: MigrationOptions, baseDirectory: string, output: Op -> string, fails: Op -> bool): Outcome<Error>
  {
    if IsNullOrEmpty(o.svnRepoUrl) then Fail(Migration(UrlRequired))
    else
      var logExport := ExportSvnLog(o.svnRepoUrl.value);
      var write := WriteAuthorsFile(AuthorsFilePath(o.authors, baseDirectory), FileLines(output(logExport), o.emailDomain));
      if Fails(fails, logExport) || AuthorList(output(logExport)).None? || Fails(fails, write) then Fail(Migration(ExportFailed))
      else Pass
  }

  /** `Run`. */
  method Run(o: MigrationOptions, baseDirectory: string, git: GitGateway) returns (res: Outcome<Error>)
    requires git.Valid()
    modifies git
    ensures old(git.probes) <= git.probes
    ensures git.Valid()
    ensures git.Trace == old(git.Trace) + Requests(o, baseDirectory, git.output, git.fails)
    ensures res == Ending(o, baseDirectory, git.output, git.fails)
  {
    if IsNullOrEmpty(o.svnRepoUrl) {
      return Fail(Migration(UrlRequired));
    }
    var authorsFile := AuthorsFilePath(o.authors, baseDirectory);
    var log := git.Perform(ExportSvnLog(o.svnRepoUrl.value));
    if log.Failure? {
      return Fail(Migration(ExportFailed));
    }
    var authors := AuthorList(log.value);
    var lines := if authors.Some? then MappingLines(authors.value, o.emailDomain) else [];
    var written := git.Call(WriteAuthorsFile(authorsFile, lines));
    if authors.None? || written.Fail? {
      return Fail(Migration(ExportFailed));
    }
    res := Pass;
  }

  /** A string holds a separator exactly when splitting on it yields a
      second field. */
  lemma SplitHasSecondField(s: string, c: char)
    ensures |Split(s, c)| >= 2 <==> c in s
  {
    if c in s {
      var parts := SplitFirst(s, c).value;
      SplitAtFirst(parts.0, c, parts.1);
    } else {
      SplitWhole(s, c);
    }
  }

  /** The author of a revision line is missing exactly when the line has no `|`. */
  lemma AuthorOfDefined(line: string)
    ensures AuthorOf(line).None? <==> '|' !in line
  {
    SplitHasSecondField(line, '|');
  }

  /** The pipeline throws exactly when some revision line has no `|`;
      otherwise it yields the authors of the revision lines. */
  lemma {:induction false} RevisionAuthorsSpec(lines: seq<string>)
    ensures RevisionAuthors(lines).None? <==> exists line <- lines :: IsRevisionLine(line) && '|' !in line
    ensures RevisionAuthors(lines).Some? ==>
      forall a :: a in RevisionAuthors(lines).value <==> exists line <- lines :: IsRevisionLine(line) && AuthorOf(line) == Some(a)
  {
    if lines != [] {
      var front := lines[..|lines| - 1];
      var line := lines[|lines| - 1];
      RevisionAuthorsSpec(front);
      AuthorOfDefined(line);
      assert forall l <- lines :: l in front || l == line;
      assert forall l <- front :: l in lines;
    }
  }

  /** `Distinct` keeps one copy of every value. */
  lemma {:induction false} DistinctCounts(xs: seq<string>)
    ensures forall x :: Count(Distinct(xs), x) == if x in xs then 1 else 0
  {
    if xs != [] {
      var front := xs[..|xs| - 1];
      var last := xs[|xs| - 1];
      DistinctCounts(front);
      var tail := if last in front then [] else [last];
      forall x ensures Count(Distinct(xs), x) == if x in xs then 1 else 0 {
        CountAppend(Distinct(front), tail, x);
        assert x in xs <==> x in front || x == last;
      }
    }
  }

  predicate StrictlySorted(xs: seq<string>)
  {
    forall i, j :: 0 <= i < j < |xs| ==> Below(xs[i], xs[j])
  }

  /** Inserting adds exactly one copy of the value. */
  lemma {:induction false} InsertCounts(xs: seq<string>, x: string)
    ensures forall y :: Count(Insert(xs, x), y) == Count(xs, y) + (if y == x then 1 else 0)
  {
    if xs != [] {
      InsertCounts(xs[1..], x);
      var r := Insert(xs, x);
      var rest := if Below(xs[0], x) then Insert(xs[1..], x) else [x] + xs[1..];
      assert r == [xs[0]] + rest || r == [x] + xs;
      forall y ensures Count(r, y) == Count(xs, y) + (if y == x then 1 else 0) {
        assert xs == [xs[0]] + xs[1..];
        CountAppend([xs[0]], xs[1..], y);
        if Below(xs[0], x) {
          CountAppend([xs[0]], rest, y);
        } else {
          CountAppend([x], xs, y);
        }
      }
    }
  }

  /** Inserting a new value keeps a strictly sorted list strictly sorted. */
  lemma {:induction false} InsertSorted(xs: seq<string>, x: string)
    requires StrictlySorted(xs) && x !in xs
    ensures StrictlySorted(Insert(xs, x))
  {
    if xs != [] {
      if Below(xs[0], x) {
        InsertSorted(xs[1..], x);
        InsertCounts(xs[1..], x);
        var t := Insert(xs[1..], x);
        forall k | 0 <= k < |t| ensures Below(xs[0], t[k]) {
          assert Count(t, t[k]) > 0;
          if t[k] != x {
            var i :| 0 <= i < |xs[1..]| && xs[1..][i] == t[k];
            assert xs[i + 1] == t[k];
          }
        }
      } else {
        BelowTotal(xs[0], x);
        forall i | 0 <= i < |xs| ensures Below(x, xs[i]) {
          if i > 0 {
            BelowTransitive(x, xs[0], xs[i]);
          }
        }
      }
    }
  }

  /** Sorting keeps every value as often as it occurs. */
  lemma {:induction false} SortAuthorsCounts(xs: seq<string>)
    ensures forall y :: Count(SortAuthors(xs), y) == Count(xs, y)
  {
    if xs != [] {
      var front := xs[..|xs| - 1];
      var last := xs[|xs| - 1];
      SortAuthorsCounts(front);
      InsertCounts(SortAuthors(front), last);
      forall y ensures Count(xs, y) == Count(front, y) + (if y == last then 1 else 0) {
        CountAppend(front, [last], y);
        assert front + [last] == xs;
      }
    }
  }

  /** A list without repeats comes out of the sort strictly sorted. */
  lemma {:induction false} SortAuthorsSorted(xs: seq<string>)
    requires forall y :: Count(xs, y) <= 1
    ensures StrictlySorted(SortAuthors(xs))
  {
    if xs != [] {
      var front := xs[..|xs| - 1];
      var last := xs[|xs| - 1];
      forall y ensures Count(front, y) + (if y == last then 1 else 0) <= 1 {
        CountAppend(front, [last], y);
        assert front + [last] == xs;
      }
      SortAuthorsSorted(front);
      SortAuthorsCounts(front);
      assert Count(SortAuthors(front), last) == 0;
      InsertSorted(SortAuthors(front), last);
    }
  }

  /** The authors file lists each non-empty author of a revision line once,
      in strictly ascending ordinal order; the pipeline throws exactly when
      a revision line has no `|`. */
  lemma AuthorListSpec(content: string)
    ensures AuthorList(content).None? <==> exists line <- LogLines(content) :: IsRevisionLine(line) && '|' !in line
    ensures AuthorList(content).Some? ==> StrictlySorted(AuthorList(content).value)
    ensures AuthorList(content).Some? ==> forall a :: a in AuthorList(content).value <==>
      a != "" && exists line <- LogLines(content) :: IsRevisionLine(line) && AuthorOf(line) == Some(a)
  {
    var lines := LogLines(content);
    RevisionAuthorsSpec(lines);
    if RevisionAuthors(lines).Some? {
      var authors := RevisionAuthors(lines).value;
      var kept := Filter(Distinct(authors), IsNonEmpty);
      DistinctCounts(authors);
      forall y ensures Count(kept, y) == if y in authors && y != "" then 1 else 0 {
        FilterCount(Distinct(authors), IsNonEmpty, y);
      }
      SortAuthorsCounts(kept);
      SortAuthorsSorted(kept);
      var sorted := SortAuthors(kept);
      forall a ensures a in sorted <==> a in authors && a != "" {
        assert Count(sorted, a) == Count(kept, a);
      }
    }
  }

  /** Two strictly sorted lists with the same values are the same list. */
  lemma {:induction false} SortedUnique(xs: seq<string>, ys: seq<string>)
    requires StrictlySorted(xs) && StrictlySorted(ys)
    requires forall a :: a in xs <==> a in ys
    ensures xs == ys
  {
    if xs != [] {
      assert xs[0] in xs;
    }
    if ys != [] {
      assert ys[0] in ys;
    }
    if xs != [] && ys != [] {
      var i :| 0 <= i < |ys| && ys[i] == xs[0];
      var j :| 0 <= j < |xs| && xs[j] == ys[0];
      if i > 0 {
        assert Below(ys[0], xs[0]);
        if j > 0 {
          BelowTransitive(xs[0], ys[0], xs[0]);
        }
        BelowIrreflexive(xs[0]);
      }
      assert ys[0] == xs[0];
      forall a ensures a in xs[1..] <==> a in ys[1..] {
        BelowIrreflexive(a);
        if a in xs[1..] {
          var k :| 1 <= k < |xs| && xs[k] == a;
          assert Below(xs[0], a) && a in xs && a in ys;
          var m :| 0 <= m < |ys| && ys[m] == a;
          assert m != 0;
          assert ys[1..][m - 1] == a;
        }
        if a in ys[1..] {
          var k :| 1 <= k < |ys| && ys[k] == a;
          assert Below(ys[0], a) && a in ys && a in xs;
          var m :| 0 <= m < |xs| && xs[m] == a;
          assert m != 0;
          assert xs[1..][m - 1] == a;
        }
      }
      SortedUnique(xs[1..], ys[1..]);
      assert xs == [xs[0]] + xs[1..] && ys == [ys[0]] + ys[1..];
    }
  }

  /** The authors file depends only on which authors the revision lines
      name: not on their order in the log nor on how often each appears. */
  lemma SameAuthorsSameFile(log1: string, log2: string, emailDomain: string)
    requires AuthorList(log1).Some? && AuthorList(log2).Some?
    requires forall a :: (exists line <- LogLines(log1) :: IsRevisionLine(line) && AuthorOf(line) == Some(a)) <==>
                         (exists line <- LogLines(log2) :: IsRevisionLine(line) && AuthorOf(line) == Some(a))
    ensures FileLines(log1, emailDomain) == FileLines(log2, emailDomain)
  {
    AuthorListSpec(log1);
    AuthorListSpec(log2);
    SortedUnique(AuthorList(log1).value, AuthorList(log2).value);
  }

  /** Without a URL nothing is requested and the step throws; every other
      failure is reported as the MigrationException of the logExport. */
  lemma FailuresWrapped(o: MigrationOptions, baseDirectory: string, output: Op -> string, fails: Op -> bool)
    ensures IsNullOrEmpty(o.svnRepoUrl) ==>
      Requests(o, baseDirectory, output, fails) == [] && Ending(o, baseDirectory, output, fails) == Fail(Migration(UrlRequired))
    ensures !IsNullOrEmpty(o.svnRepoUrl) && Ending(o, baseDirectory, output, fails).Fail? ==>
      Ending(o, baseDirectory, output, fails) == Fail(Migration(ExportFailed))
    ensures !IsNullOrEmpty(o.svnRepoUrl) && AuthorList(output(ExportSvnLog(o.svnRepoUrl.value))).None? ==>
      Ending(o, baseDirectory, output, fails).Fail? &&
      forall op <- Requests(o, baseDirectory, output, fails) :: op.WriteAuthorsFile? ==> op.lines == []
  {
  }
}
