/** How the steps read git-svn's remote-tracking branch names: which ones
    stand for SVN tags (GetBranchesStep.cs), which ones are SVN branches and
    what local branch each one is meant to become (the `Where` and `Replace`
    that LegacyBranchFixer.cs and RebaseBranchFixer.cs share). */
module SvnBranches {
  import opened Wrappers
  import opened Seqs
  import opened Text

  /** A remote-tracking branch under `svn/tags/`. */
  predicate IsTagRef(b: string)
  {
    StartsWith(b, "svn/tags/")
  }

  /** The tag list GetBranchesStep derives from the remote branches. */
  function TagsOf(remote: seq<string>): seq<string>
  {
    Filter(remote, IsTagRef)
  }

  /** The tag list is the remote branches under `svn/tags/`, in git's order,
      each as often as git listed it. */
  lemma TagsOfRemote(remote: seq<string>)
    ensures IsSubsequence(TagsOf(remote), remote)
    ensures forall b :: b in TagsOf(remote) <==> b in remote && IsTagRef(b)
    ensures forall b :: Count(TagsOf(remote), b) == if IsTagRef(b) then Count(remote, b) else 0
  {
    FilterIsSubsequence(remote, IsTagRef);
    FilterMembers(remote, IsTagRef);
    forall b ensures Count(TagsOf(remote), b) == if IsTagRef(b) then Count(remote, b) else 0 {
      FilterCount(remote, IsTagRef, b);
    }
  }

  /** A remote branch the branch fixers look at: under `svn/` and not one
      of the tags. */
  predicate IsCandidate(b: string, tags: seq<string>)
  {
    StartsWith(b, "svn/") && b !in tags
  }

  /** The SVN branches the two branch fixers walk through, in git's order. */
  function Candidates(remote: seq<string>, tags: seq<string>): seq<string>
  {
    Filter(remote, b => IsCandidate(b, tags))
  }

  /** With the tag list GetBranchesStep builds, the candidates are exactly
      the remote branches under `svn/` but not under `svn/tags/`, in order. */
  lemma CandidatesAfterGetBranches(remote: seq<string>)
    ensures IsSubsequence(Candidates(remote, TagsOf(remote)), remote)
    ensures forall b :: b in Candidates(remote, TagsOf(remote)) <==>
      b in remote && StartsWith(b, "svn/") && !IsTagRef(b)
  {
    FilterIsSubsequence(remote, b => IsCandidate(b, TagsOf(remote)));
    FilterMembers(remote, b => IsCandidate(b, TagsOf(remote)));
    FilterMembers(remote, IsTagRef);
  }

  /** The local branch a candidate is meant to become: every `svn/` removed,
      then trimmed. */
  function LeafName(b: string): (leaf: string)
    ensures leaf == [] || (!IsWhiteSpace(leaf[0]) && !IsWhiteSpace(leaf[|leaf| - 1]))
  {
    StripSlice(ReplaceAll(b, "svn/", ""), IsWhiteSpace);
    Trim(ReplaceAll(b, "svn/", ""))
  }

  /** The test both branch fixers apply to a leaf: it already has a local
      branch, or it is `trunk` (whose local branch is `master`). The legacy
      fixer leaves these alone; the rebase fixer handles only these. */
  predicate HasLocal(leaf: string, local: seq<string>)
  {
    leaf in local || leaf == "trunk"
  }

  /** Replacing a pattern that does not occur changes nothing. */
  lemma {:induction false} ReplaceAbsent(s: string, pat: string, rep: string)
    requires pat != [] && !Contains(s, pat)
    ensures ReplaceAll(s, pat, rep) == s
    decreases |s|
  {
    if |s| >= |pat| {
      if s[..|pat|] != pat {
        ReplaceAbsent(s[1..], pat, rep);
      }
    }
  }

  /** `svn/name` stands for the local branch `name` when the name is already
      trimmed and holds no further `svn/`. */
  lemma LeafOfSvnBranch(name: string)
    requires !Contains(name, "svn/")
    requires name == [] || (!IsWhiteSpace(name[0]) && !IsWhiteSpace(name[|name| - 1]))
    ensures LeafName("svn/" + name) == name
  {
    var b := "svn/" + name;
    assert b[..4] == "svn/" && b[4..] == name;
    ReplaceAbsent(name, "svn/", "");
    assert ReplaceAll(b, "svn/", "") == name;
    StripKeeps(name, IsWhiteSpace);
  }
}
