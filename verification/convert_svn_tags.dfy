/** ConvertSvnTagsToGitTags.cs: turns every remote ref git lists into an
    annotated tag named after the ref's last segment, with a trailing
    `@<revision>` rewritten to `_r<revision>` and repeated names numbered. */
module ConvertSvnTags {
  import opened Wrappers
  import opened Seqs
  import opened Text
  import opened GitOps
  import opened Gateway

  /** The refs the step lists. */
  const RefsPath: string := "refs/remotes"

  /** The length of the run of ASCII digits that ends `s`. */
  function TrailingDigits(s: string): (n: nat)
    ensures n <= |s|
    ensures forall i :: |s| - n <= i < |s| ==> IsDigit(s[i])
    ensures n < |s| ==> !IsDigit(s[|s| - n - 1])
  {
    if s != [] && IsDigit(s[|s| - 1]) then TrailingDigits(s[..|s| - 1]) + 1 else 0
  }

  /** `@(\d+)$` matches at `k`: an `@` followed by digits up to the end. */
  predicate RevisionSuffixAt(name: string, k: int)
  {
    0 <= k < |name| - 1 && name[k] == '@' && AllDigits(name[k + 1..])
  }

  /** A match of `@(\d+)$` can only start right before the trailing digits. */
  lemma SuffixBeforeTrailingDigits(name: string)
    ensures forall k :: RevisionSuffixAt(name, k) ==> k == |name| - TrailingDigits(name) - 1
  {
    var n := TrailingDigits(name);
    forall k | RevisionSuffixAt(name, k) ensures k == |name| - n - 1 {
      forall i | k + 1 <= i < |name| ensures IsDigit(name[i]) {
        assert name[i] == name[k + 1..][i - k - 1];
      }
    }
  }

  /** `Regex.Replace(name, @"@(\d+)$", "_r$1")` (see `CleanTagSpec`). */
  function CleanTag(name: string): string
  {
    var n := TrailingDigits(name);
    if 0 < n < |name| && name[|name| - n - 1] == '@' then
      name[..|name| - n - 1] + "_r" + name[|name| - n..]
    else
      name
  }

  /** The revision suffix, if there is one, becomes `_r` and the same
      digits; any other name is kept as it is. */
  lemma CleanTagSpec(name: string)
    ensures forall k :: RevisionSuffixAt(name, k) ==> CleanTag(name) == name[..k] + "_r" + name[k + 1..]
    ensures (forall k :: !RevisionSuffixAt(name, k)) ==> CleanTag(name) == name
  {
    var n := TrailingDigits(name);
    SuffixBeforeTrailingDigits(name);
    if 0 < n < |name| && name[|name| - n - 1] == '@' {
      assert RevisionSuffixAt(name, |name| - n - 1);
    }
  }

  /** The tag name a ref yields before numbering: its last `/` segment, cleaned. */
  function CleanName(originalTag: string): string
  {
    CleanTag(LastSegment(originalTag, '/'))
  }

  /** `tagCounts` after meeting `clean` once more, and the name the tag gets:
      the first time the clean name itself, recorded with count 0; the k-th
      repeat the clean name with `_k` appended. */
  function Dedup(counts: map<string, nat>, clean: string): (map<string, nat>, string)
  {
    if clean in counts then
      (counts[clean := counts[clean] + 1], clean + "_" + NatToString(counts[clean] + 1))
    else
      (counts[clean := 0], clean)
  }

  /** The message of a converted tag. */
  function Message(originalTag: string): string
  {
    "Converted from SVN: " + originalTag
  }

  /** The console line of a converted ref. */
  function Report(originalTag: string, name: string): string
  {
    "Converted tag: " + originalTag + " -> " + name
  }

  /** `tagCounts` after one listed line; a line without a space is skipped. */
  function NextCounts(line: string, counts: map<string, nat>): map<string, nat>
  {
    match SplitFirst(line, ' ')
    case None => counts
    case Some(parts) => Dedup(counts, CleanName(parts.0)).0
  }

  /** The requests made for a ref once its tag is named: the tag (unless
      it is named `trunk`) and the console line. */
  function RefOps(originalTag: string, commit: string, name: string): seq<Op>
  {
    (if name != "trunk" then [CreateTagWithCommit(name, commit, Message(originalTag))] else [])
    + [WriteLine(Report(originalTag, name))]
  }

  /** The requests made for one listed line; nothing for a line without a
      space. */
  function LineOps(line: string, counts: map<string, nat>): seq<Op>
  {
    match SplitFirst(line, ' ')
    case None => []
    case Some(parts) => RefOps(parts.0, parts.1, Dedup(counts, CleanName(parts.0)).1)
  }

  function CountStep(): (map<string, nat>, string) -> map<string, nat>
  {
    (counts, line) => NextCounts(line, counts)
  }

  function LineStep(): (map<string, nat>, string) -> seq<Op>
  {
    (counts, line) => LineOps(line, counts)
  }

  /** `tagCounts` after a run of lines. */
  function CountsAfter(lines: seq<string>): map<string, nat>
  {
    FoldState(lines, map[], CountStep())
  }

  /** The requests made for a run of lines, in order. */
  function Converted(lines: seq<string>): seq<Op>
  {
    FoldEmit(lines, map[], CountStep(), LineStep())
  }

  /** The requests `Run` makes: the listing, then the lines it returns. */
  function Plan(output: Op -> string): seq<Op>
  {
    [ListTagRefs(RefsPath)] + Converted(ParseTagRefs(output(ListTagRefs(RefsPath))))
  }

  /** The requests for a named ref. */
  method CreateAndReport(git: GitGateway, originalTag: string, commit: string, name: string) returns (res: Outcome<Error>)
    requires git.Valid()
    modifies git
    ensures old(git.probes) <= git.probes
    ensures git.Valid()
    ensures git.committerDate == old(git.committerDate)
    ensures git.Trace == old(git.Trace) + Issued(RefOps(originalTag, commit, name), git.fails)
    ensures res == Verdict(RefOps(originalTag, commit, name), git.fails)
  {
    ghost var report := [WriteLine(Report(originalTag, name))];
    if name != "trunk" {
      var create := CreateTagWithCommit(name, commit, Message(originalTag));
      res := git.Call(create);
      if res.Fail? {
        IssuedAppendFail([create], report, git.fails);
        return;
      }
      var shown := git.Call(WriteLine(Report(originalTag, name)));
      IssuedAppendPass([create], report, git.fails);
      AppendAssoc(old(git.Trace), [create], report);
    } else {
      res := git.Call(WriteLine(Report(originalTag, name)));
    }
  }

  /** The `tagCounts` lookup: a name met before gets its next number. */
  method Number(counts: map<string, nat>, clean: string) returns (next: map<string, nat>, name: string)
    ensures (next, name) == Dedup(counts, clean)
  {
    next := counts;
    name := clean;
    if name in next {
      next := next[name := next[name] + 1];
      name := name + "_" + NatToString(next[name]);
    } else {
      next := next[name := 0];
    }
  }

  /** One pass of the loop body: the line split at its first space, the
      name cleaned and numbered, the tag created unless it is `trunk`, the
      conversion reported. */
  method ConvertLine(git: GitGateway, line: string, counts: map<string, nat>) returns (res: Outcome<Error>, next: map<string, nat>)
    requires git.Valid()
    modifies git
    ensures old(git.probes) <= git.probes
    ensures git.Valid()
    ensures git.committerDate == old(git.committerDate)
    ensures git.Trace == old(git.Trace) + Issued(LineStep()(counts, line), git.fails)
    ensures res == Verdict(LineStep()(counts, line), git.fails)
    ensures next == CountStep()(counts, line)
  {
    var parts := SplitFirst(line, ' ');
    if parts.None? {
      return Pass, counts;
    }
    var originalTag := parts.value.0;
    var tagName := LastSegment(originalTag, '/');
    var cleanTag;
    next, cleanTag := Number(counts, CleanTag(tagName));
    res := CreateAndReport(git, originalTag, parts.value.1, cleanTag);
  }

  /** The loop over the listed lines; `tagCounts` is carried from line to
      line; the first request that throws ends it. */
  method ConvertAll(git: GitGateway, lines: seq<string>) returns (res: Outcome<Error>)
    requires git.Valid()
    modifies git
    ensures old(git.probes) <= git.probes
    ensures git.Valid()
    ensures git.committerDate == old(git.committerDate)
    ensures git.Trace == old(git.Trace) + Issued(Converted(lines), git.fails)
    ensures res == Verdict(Converted(lines), git.fails)
  {
    ghost var plan := Converted(lines);
    ghost var done: seq<Op> := [];
    var tagCounts: map<string, nat> := map[];
    var i := 0;
    while i < |lines|
      invariant 0 <= i <= |lines|
      invariant git.Valid()
      invariant old(git.probes) <= git.probes
      invariant git.committerDate == old(git.committerDate)
      invariant done == Converted(lines[..i])
      invariant tagCounts == CountsAfter(lines[..i])
      invariant git.Trace == old(git.Trace) + done
      invariant Verdict(done, git.fails) == Pass
    {
      ghost var g := LineOps(lines[i], tagCounts);
      FoldSnoc(lines, i, map[], CountStep(), LineStep());
      FoldEmitPrefix(lines, i + 1, map[], CountStep(), LineStep());
      var r;
      r, tagCounts := ConvertLine(git, lines[i], tagCounts);
      TraceAfterGroup(old(git.Trace), done, g, plan, git.fails, git.Trace);
      if r.Fail? {
        return r;
      }
      done := done + g;
      i := i + 1;
    }
    assert lines[..i] == lines;
    VerdictPass(plan, git.fails);
    res := Pass;
  }

  /** `Run`: the remote refs listed, then converted one line at a time; the
      first request that throws ends the step. */
  method Run(git: GitGateway) returns (res: Outcome<Error>)
    requires git.Valid()
    modifies git
    ensures old(git.probes) <= git.probes
    ensures git.Valid()
    ensures git.committerDate == old(git.committerDate)
    ensures git.Trace == old(git.Trace) + Issued(Plan(git.output), git.fails)
    ensures res == Verdict(Plan(git.output), git.fails)
  {
    ghost var converted := Converted(ParseTagRefs(git.output(ListTagRefs(RefsPath))));
    var tagLines := git.GetTagsListWithHashes(RefsPath);
    if tagLines.Failure? {
      IssuedAppendFail([ListTagRefs(RefsPath)], converted, git.fails);
      return Fail(tagLines.error);
    }
    IssuedAppendPass([ListTagRefs(RefsPath)], converted, git.fails);
    res := ConvertAll(git, tagLines.value);
    AppendAssoc(old(git.Trace), [ListTagRefs(RefsPath)], Issued(converted, git.fails));
  }

  /** The clean names of the well-formed lines among `lines`, in order:
      the keys `tagCounts` is consulted with. */
  function Cleans(lines: seq<string>): seq<string>
  {
    if lines == [] then []
    else
      Cleans(lines[..|lines| - 1]) +
      match SplitFirst(lines[|lines| - 1], ' ')
      case None => []
      case Some(parts) => [CleanName(parts.0)]
  }

  /** A well-formed line adds its clean name. */
  lemma CleansSnoc(front: seq<string>, originalTag: string, commit: string)
    requires ' ' !in originalTag
    ensures Cleans(front + [originalTag + " " + commit]) == Cleans(front) + [CleanName(originalTag)]
  {
    var lines := front + [originalTag + " " + commit];
    SplitFirstInverse(originalTag, ' ', commit);
    assert lines[..|lines| - 1] == front;
  }

  /** A line is split at its first space: the ref before it, the commit
      (spaces and all) after it; a line without a space makes no request
      and leaves `tagCounts` alone. */
  lemma LineFields(originalTag: string, commit: string, counts: map<string, nat>)
    requires ' ' !in originalTag
    ensures LineOps(originalTag + " " + commit, counts) == RefOps(originalTag, commit, Dedup(counts, CleanName(originalTag)).1)
    ensures NextCounts(originalTag + " " + commit, counts) == Dedup(counts, CleanName(originalTag)).0
  {
    SplitFirstInverse(originalTag, ' ', commit);
  }

  lemma SpacelessLineSkipped(line: string, counts: map<string, nat>)
    requires ' ' !in line
    ensures LineOps(line, counts) == [] && NextCounts(line, counts) == counts
  {
  }

  /** A trailing `@` and digits become `_r` and the same digits. */
  lemma RevisionRewritten(prefix: string, digits: string)
    requires digits != [] && AllDigits(digits)
    ensures CleanTag(prefix + "@" + digits) == prefix + "_r" + digits
  {
    var name := prefix + "@" + digits;
    CleanTagSpec(name);
    assert name[|prefix| + 1..] == digits;
    assert RevisionSuffixAt(name, |prefix|);
    assert name[..|prefix|] == prefix;
  }

  /** `tagCounts` holds exactly the clean names met so far, each with the
      number of times it was met, less one. */
  lemma {:induction false} CountsTally(lines: seq<string>)
    ensures forall c :: c in CountsAfter(lines) <==> c in Cleans(lines)
    ensures forall c :: c in CountsAfter(lines) ==> CountsAfter(lines)[c] == Count(Cleans(lines), c) - 1
  {
    if lines != [] {
      var front := lines[..|lines| - 1];
      var last := lines[|lines| - 1];
      CountsTally(front);
      assert CountsAfter(lines) == NextCounts(last, CountsAfter(front));
      match SplitFirst(last, ' ')
      case None =>
        assert Cleans(lines) == Cleans(front);
      case Some(parts) =>
        var x := CleanName(parts.0);
        assert Cleans(lines) == Cleans(front) + [x];
        forall c ensures Count(Cleans(lines), c) == Count(Cleans(front), c) + (if c == x then 1 else 0) {
          CountAppend(Cleans(front), [x], c);
        }
    }
  }

  /** The name given to the clean name `c` after `k` earlier lines had it:
      `c` itself the first time, `c` with `_k` appended on the k-th repeat. */
  function Numbered(c: string, k: nat): string
  {
    if k == 0 then c else c + "_" + NatToString(k)
  }

  lemma NumberedFirstRepeat(c: string)
    ensures Numbered(c, 1) == c + "_1"
  {
    assert NatToString(1) == "1";
  }

  /** The name a well-formed line gets: its clean name the first time, the
      clean name with `_k` appended when k earlier lines had the same clean
      name (so the second `rel` becomes `rel_1`). */
  lemma RepeatNumbered(front: seq<string>, originalTag: string, commit: string)
    requires ' ' !in originalTag
    ensures LineOps(originalTag + " " + commit, CountsAfter(front)) ==
      RefOps(originalTag, commit, Numbered(CleanName(originalTag), Count(Cleans(front), CleanName(originalTag))))
  {
    LineFields(originalTag, commit, CountsAfter(front));
    CountsTally(front);
  }

  /** The first ref named `trunk` gets no tag, only its console line. */
  lemma TrunkSkipped(front: seq<string>, originalTag: string, commit: string)
    requires ' ' !in originalTag && CleanName(originalTag) == "trunk"
    requires Count(Cleans(front), "trunk") == 0
    ensures LineOps(originalTag + " " + commit, CountsAfter(front)) == [WriteLine(Report(originalTag, "trunk"))]
  {
    RepeatNumbered(front, originalTag, commit);
  }

  /** The skipped `trunk` is still counted, so the next ref named `trunk`
      is created as `trunk_1`. */
  lemma TrunkCounted(front: seq<string>, originalTag: string, commit: string)
    requires ' ' !in originalTag && CleanName(originalTag) == "trunk"
    requires Count(Cleans(front), "trunk") == 1
    ensures LineOps(originalTag + " " + commit, CountsAfter(front)) ==
      [CreateTagWithCommit("trunk_1", commit, Message(originalTag)), WriteLine(Report(originalTag, "trunk_1"))]
  {
    RepeatNumbered(front, originalTag, commit);
    NumberedFirstRepeat("trunk");
    assert "trunk" + "_1" == "trunk_1";
    assert |"trunk_1"| != |"trunk"|;
  }

  /** Only clean names are counted, never the numbered names made from
      them: after a second ref cleaned to `c` is named `c_1`, a ref whose
      own clean name is `c_1` is named `c_1` too. */
  lemma NumberedNameNotReserved(front: seq<string>, tag1: string, commit1: string, tag2: string, commit2: string)
    requires ' ' !in tag1 && ' ' !in tag2
    requires Count(Cleans(front), CleanName(tag1)) == 1
    requires CleanName(tag2) == CleanName(tag1) + "_1" && CleanName(tag2) !in Cleans(front)
    ensures LineOps(tag1 + " " + commit1, CountsAfter(front)) == RefOps(tag1, commit1, CleanName(tag2))
    ensures LineOps(tag2 + " " + commit2, CountsAfter(front + [tag1 + " " + commit1])) == RefOps(tag2, commit2, CleanName(tag2))
  {
    var c := CleanName(tag1);
    var lines := front + [tag1 + " " + commit1];
    RepeatNumbered(front, tag1, commit1);
    NumberedFirstRepeat(c);
    CleansSnoc(front, tag1, commit1);
    CountAppend(Cleans(front), [c], CleanName(tag2));
    assert Count(Cleans(lines), CleanName(tag2)) == 0;
    RepeatNumbered(lines, tag2, commit2);
  }
}
