/** The .NET string operations the core relies on, over `string` = `seq<char>`:
    `Trim`, `Trim(char)`, `StartsWith`, `Contains`, `Replace`, `Split`, `string.Join`,
    `string.IsNullOrEmpty`, `string.IsNullOrWhiteSpace` and `int.ToString()`.
    Comparisons are ordinal (char by char), as `StartsWith`/`Contains` on the
    values the core sees behave. */
module Text {
  import opened Wrappers
  import opened Seqs

  /** `Char.IsWhiteSpace`: the Unicode space separators, line and paragraph
      separators, and the control characters U+0009..U+000D, U+0085. */
  predicate IsWhiteSpace(c: char)
  {
    var n := c as int;
    n == 0x20 || (0x09 <= n <= 0x0D) || n == 0x85 || n == 0xA0 || n == 0x1680
    || (0x2000 <= n <= 0x200A) || n == 0x2028 || n == 0x2029 || n == 0x202F
    || n == 0x205F || n == 0x3000
  }

  /** Removes the leading characters satisfying `drop`. (Its properties
      are lemmas rather than postconditions, so that a trimmed name in a
      contract does not drag them into every proof.) */
  function StripStart(s: string, drop: char -> bool): string
  {
    if s != [] && drop(s[0]) then StripStart(s[1..], drop) else s
  }

  /** `StripStart` keeps a suffix that does not open with a dropped
      character, and everything it removes satisfies `drop`. */
  lemma {:induction false} StripStartDrops(s: string, drop: char -> bool)
    ensures var r := StripStart(s, drop);
      |r| <= |s| && r == s[|s| - |r|..] && (r == [] || !drop(r[0]))
    ensures forall i :: 0 <= i < |s| - |StripStart(s, drop)| ==> drop(s[i])
  {
    if s != [] && drop(s[0]) {
      var r := StripStart(s[1..], drop);
      StripStartDrops(s[1..], drop);
      assert StripStart(s, drop) == r;
      assert s[1..][|s| - 1 - |r|..] == s[|s| - |r|..];
      forall i | 0 <= i < |s| - |r|
        ensures drop(s[i])
      {
        if i > 0 {
          assert s[i] == s[1..][i - 1];
        }
      }
    }
  }

  /** Removes the trailing characters satisfying `drop`. */
  function StripEnd(s: string, drop: char -> bool): string
  {
    if s != [] && drop(s[|s| - 1]) then StripEnd(s[..|s| - 1], drop) else s
  }

  /** `StripEnd` keeps a prefix that does not close with a dropped
      character, and everything it removes satisfies `drop`. */
  lemma {:induction false} StripEndDrops(s: string, drop: char -> bool)
    ensures var r := StripEnd(s, drop);
      |r| <= |s| && r == s[..|r|] && (r == [] || !drop(r[|r| - 1]))
    ensures forall i :: |StripEnd(s, drop)| <= i < |s| ==> drop(s[i])
  {
    if s != [] && drop(s[|s| - 1]) {
      var r := StripEnd(s[..|s| - 1], drop);
      StripEndDrops(s[..|s| - 1], drop);
      assert StripEnd(s, drop) == r;
      assert s[..|s| - 1][..|r|] == s[..|r|];
      forall i | |r| <= i < |s|
        ensures drop(s[i])
      {
        if i < |s| - 1 {
          assert s[i] == s[..|s| - 1][i];
        }
      }
    }
  }

  /** Removes the characters satisfying `drop` from both ends. */
  function Strip(s: string, drop: char -> bool): string
  {
    StripEnd(StripStart(s, drop), drop)
  }

  /** `Strip` keeps a slice `s[k..k + |r|]` of its input that neither opens
      nor closes with a dropped character, and everything cut off around it
      satisfies `drop`. */
  lemma StripSlice(s: string, drop: char -> bool)
    ensures var r := Strip(s, drop); var k := |s| - |StripStart(s, drop)|;
      0 <= k && k + |r| <= |s| && r == s[k..k + |r|]
      && (r == [] || (!drop(r[0]) && !drop(r[|r| - 1])))
      && (forall i :: 0 <= i < k ==> drop(s[i]))
      && (forall i :: k + |r| <= i < |s| ==> drop(s[i]))
  {
    var t := StripStart(s, drop);
    StripStartDrops(s, drop);
    StripEndDrops(t, drop);
  }

  /** `string.Trim()`. */
  function Trim(s: string): string
  {
    Strip(s, IsWhiteSpace)
  }

  /** `string.Trim(c)`. */
  function TrimChar(s: string, c: char): string
  {
    Strip(s, x => x == c)
  }

  /** A string whose ends are kept is left alone by `Strip`. */
  lemma StripKeeps(s: string, drop: char -> bool)
    requires s == [] || (!drop(s[0]) && !drop(s[|s| - 1]))
    ensures Strip(s, drop) == s
  {
  }

  /** `Trim` is idempotent. */
  lemma TrimIdempotent(s: string)
    ensures Trim(Trim(s)) == Trim(s)
  {
    StripSlice(s, IsWhiteSpace);
    StripKeeps(Trim(s), IsWhiteSpace);
  }

  /** `string.StartsWith(p)` with ordinal comparison. */
  predicate StartsWith(s: string, p: string)
  {
    |p| <= |s| && s[..|p|] == p
  }

  /** `string.Contains(sub)`: `sub` occurs somewhere in `s` (always, for `sub == ""`). */
  predicate Contains(s: string, sub: string)
    decreases |s|
  {
    StartsWith(s, sub) || (s != [] && Contains(s[1..], sub))
  }

  /** `Contains` means an occurrence at some index. */
  lemma {:induction false} ContainsAt(s: string, sub: string, i: nat)
    requires i + |sub| <= |s| && s[i..i + |sub|] == sub
    ensures Contains(s, sub)
    decreases i
  {
    if i > 0 {
      assert s[1..][i - 1..i - 1 + |sub|] == s[i..i + |sub|];
      ContainsAt(s[1..], sub, i - 1);
    }
  }

  /** Every string contains itself: a name matches a filter on it. */
  lemma ContainsSelf(s: string)
    ensures Contains(s, s)
  {
    ContainsAt(s, s, 0);
  }

  /** `string.Replace(pat, rep)`: every occurrence of `pat`, scanning left to
      right without overlap, is replaced by `rep`. */
  function ReplaceAll(s: string, pat: string, rep: string): string
    requires pat != []
    decreases |s|
  {
    if |s| < |pat| then s
    else if s[..|pat|] == pat then rep + ReplaceAll(s[|pat|..], pat, rep)
    else [s[0]] + ReplaceAll(s[1..], pat, rep)
  }

  /** Replacing one character maps every character independently. */
  function ReplaceEach(s: string, c: char, rep: string): (r: string)
  {
    if s == [] then [] else (if s[0] == c then rep else [s[0]]) + ReplaceEach(s[1..], c, rep)
  }

  /** `Replace` of a one-character pattern is the character-wise substitution. */
  lemma {:induction false} ReplaceCharIsEach(s: string, c: char, rep: string)
    ensures ReplaceAll(s, [c], rep) == ReplaceEach(s, c, rep)
  {
    if s != [] {
      ReplaceCharIsEach(s[1..], c, rep);
      if s[0] == c {
        assert s[..1] == [c];
      } else {
        assert s[..1] != [c];
      }
    }
  }

  lemma {:induction false} ReplaceEachAppend(a: string, b: string, c: char, rep: string)
    ensures ReplaceEach(a + b, c, rep) == ReplaceEach(a, c, rep) + ReplaceEach(b, c, rep)
  {
    if a == [] {
      assert a + b == b;
    } else {
      assert (a + b)[1..] == a[1..] + b;
      ReplaceEachAppend(a[1..], b, c, rep);
    }
  }

  /** Substitution adds `|rep| - 1` characters per occurrence. */
  lemma {:induction false} ReplaceEachLength(s: string, c: char, rep: string)
    ensures |ReplaceEach(s, c, rep)| == |s| + Count(s, c) * (|rep| - 1)
  {
    if s != [] {
      ReplaceEachLength(s[1..], c, rep);
      var n := Count(s[1..], c);
      assert (n + 1) * (|rep| - 1) == n * (|rep| - 1) + (|rep| - 1);
    }
  }

  /** `String.Split(separators)`: the fields between separators, empty ones
      included; there is always one more field than separators. */
  function SplitAny(s: string, seps: set<char>): (parts: seq<string>)
    ensures |parts| >= 1
    ensures |parts| == 1 ==> parts[0] == s
    decreases |s|
  {
    if s == [] then [""]
    else
      var rest := SplitAny(s[1..], seps);
      if s[0] in seps then [""] + rest
      else [[s[0]] + rest[0]] + rest[1..]
  }

  /** No field of a split holds a separator. */
  lemma {:induction false} SplitAnyFields(s: string, seps: set<char>)
    ensures forall i, j :: 0 <= i < |SplitAny(s, seps)| && 0 <= j < |SplitAny(s, seps)[i]| ==>
      SplitAny(s, seps)[i][j] !in seps
    decreases |s|
  {
    if s != [] {
      SplitAnyFields(s[1..], seps);
      var rest := SplitAny(s[1..], seps);
      var parts := SplitAny(s, seps);
      if s[0] in seps {
        assert parts == [""] + rest;
        forall i, j | 0 <= i < |parts| && 0 <= j < |parts[i]| ensures parts[i][j] !in seps {
          assert parts[i] == rest[i - 1];
          assert rest[i - 1][j] !in seps;
        }
      } else {
        var first := [s[0]] + rest[0];
        assert parts == [first] + rest[1..];
        forall i, j | 0 <= i < |parts| && 0 <= j < |parts[i]| ensures parts[i][j] !in seps {
          if i == 0 {
            if j > 0 {
              assert first[j] == rest[0][j - 1];
              assert rest[0][j - 1] !in seps;
            }
          } else {
            assert parts[i] == rest[i];
            assert rest[i][j] !in seps;
          }
        }
      }
    }
  }

  /** `String.Split(c)`. */
  function Split(s: string, c: char): seq<string>
  {
    SplitAny(s, {c})
  }

  /** `string.Join(sep, parts)`. */
  function Join(parts: seq<string>, sep: string): string
  {
    if parts == [] then ""
    else if |parts| == 1 then parts[0]
    else parts[0] + sep + Join(parts[1..], sep)
  }

  /** Splitting on a character and joining with it again gives back the input. */
  lemma {:induction false} JoinSplit(s: string, c: char)
    ensures Join(Split(s, c), [c]) == s
    decreases |s|
  {
    if s != [] {
      JoinSplit(s[1..], c);
      var rest := Split(s[1..], c);
      if s[0] == c {
        assert Split(s, c) == [""] + rest;
      } else if |rest| > 1 {
        assert Split(s, c) == [[s[0]] + rest[0]] + rest[1..];
        assert Join(rest, [c]) == rest[0] + [c] + Join(rest[1..], [c]);
      }
    }
  }

  /** A string without separators splits into itself alone. */
  lemma {:induction false} SplitWhole(s: string, c: char)
    requires c !in s
    ensures Split(s, c) == [s]
    decreases |s|
  {
    if s != [] {
      SplitWhole(s[1..], c);
      assert s == [s[0]] + s[1..];
    }
  }

  /** The first field of a split ends at the first separator; the rest is
      the split of what follows it. */
  lemma {:induction false} SplitAtFirst(head: string, c: char, tail: string)
    requires c !in head
    ensures Split(head + [c] + tail, c) == [head] + Split(tail, c)
    decreases |head|
  {
    var s := head + [c] + tail;
    if head == [] {
      assert s[1..] == tail;
    } else {
      assert s[1..] == head[1..] + [c] + tail;
      SplitAtFirst(head[1..], c, tail);
      assert [s[0]] + head[1..] == head;
    }
  }

  /** The last field of a split is the suffix after the last separator. */
  lemma {:induction false} SplitLast(s: string, seps: set<char>)
    ensures var parts := SplitAny(s, seps); var l := parts[|parts| - 1];
      |l| <= |s| && l == s[|s| - |l|..] && (|l| < |s| ==> s[|s| - |l| - 1] in seps)
      && (|parts| > 1 ==> |l| < |s|)
    decreases |s|
  {
    if s != [] {
      SplitLast(s[1..], seps);
      var rest := SplitAny(s[1..], seps);
      if s[0] in seps {
        assert SplitAny(s, seps) == [""] + rest;
      } else if |rest| == 1 {
        assert SplitAny(s, seps) == [[s[0]] + rest[0]];
      } else {
        assert SplitAny(s, seps) == [[s[0]] + rest[0]] + rest[1..];
      }
    }
  }

  /** The fields of a split, laid end to end, are the input without its separators. */
  lemma {:induction false} ConcatSplit(s: string, seps: set<char>)
    ensures Concat(SplitAny(s, seps)) == Filter(s, ch => ch !in seps)
    decreases |s|
  {
    if s != [] {
      ConcatSplit(s[1..], seps);
      var rest := SplitAny(s[1..], seps);
      if s[0] in seps {
        assert Concat([""] + rest) == "" + Concat(rest);
      } else {
        assert Concat([[s[0]] + rest[0]] + rest[1..]) == [s[0]] + rest[0] + Concat(rest[1..]);
      }
    }
  }

  predicate IsNonEmpty(s: string)
  {
    s != ""
  }

  /** Removing empty fields does not change what the fields spell. */
  lemma {:induction false} ConcatNonEmpty(parts: seq<string>)
    ensures Concat(Filter(parts, IsNonEmpty)) == Concat(parts)
  {
    if parts != [] {
      ConcatNonEmpty(parts[1..]);
    }
  }

  /** `String.Split(c, 2)`: the text before the first `c` and everything after it,
      or `None` when `c` does not occur (the split then has a single part). */
  function SplitFirst(s: string, c: char): (r: Option<(string, string)>)
    ensures r.None? <==> c !in s
    ensures r.Some? ==> c !in r.value.0 && s == r.value.0 + [c] + r.value.1
  {
    if s == [] then None
    else if s[0] == c then Some(([], s[1..]))
    else match SplitFirst(s[1..], c)
      case None => None
      case Some(p) => Some(([s[0]] + p.0, p.1))
  }

  /** `SplitFirst` splits at the first separator and keeps the rest whole. */
  lemma {:induction false} SplitFirstInverse(head: string, c: char, tail: string)
    requires c !in head
    ensures SplitFirst(head + [c] + tail, c) == Some((head, tail))
  {
    if head == [] {
      assert head + [c] + tail == [c] + tail;
    } else {
      assert (head + [c] + tail)[1..] == head[1..] + [c] + tail;
      SplitFirstInverse(head[1..], c, tail);
      assert (head + [c] + tail)[0] == head[0] != c;
      assert [head[0]] + head[1..] == head;
    }
  }

  /** `s.Split(c).Last()`. */
  function LastSegment(s: string, c: char): string
  {
    var parts := Split(s, c);
    SplitLast(s, {c});
    parts[|parts| - 1]
  }

  /** The last segment is the text after the last `c`. */
  lemma LastSegmentSuffix(s: string, c: char)
    ensures var r := LastSegment(s, c);
      |r| <= |s| && r == s[|s| - |r|..] && c !in r && (|r| < |s| ==> s[|s| - |r| - 1] == c)
  {
    var parts := Split(s, c);
    SplitLast(s, {c});
    SplitAnyFields(s, {c});
    var last := parts[|parts| - 1];
    assert forall j :: 0 <= j < |last| ==> last[j] != c;
  }

  /** The segment after the last separator. */
  lemma LastSegmentAfter(prefix: string, c: char, segment: string)
    requires c !in segment
    ensures LastSegment(prefix + [c] + segment, c) == segment
  {
    var s := prefix + [c] + segment;
    var r := LastSegment(s, c);
    LastSegmentSuffix(s, c);
    assert s[|s| - |segment| - 1] == c;
  }

  predicate IsDigit(c: char)
  {
    '0' <= c <= '9'
  }

  predicate AllDigits(s: string)
  {
    forall c <- s :: IsDigit(c)
  }

  /** `int.ToString()` of a non-negative number: its decimal digits. */
  function NatToString(n: nat): (r: string)
    ensures |r| >= 1 && AllDigits(r)
    decreases n
  {
    var d := (48 + n % 10) as char;
    if n < 10 then [d] else NatToString(n / 10) + [d]
  }

  /** `string.IsNullOrEmpty`. */
  predicate IsNullOrEmpty(s: Option<string>)
  {
    s.None? || s.value == ""
  }

  /** `string.IsNullOrWhiteSpace`. */
  predicate IsNullOrWhiteSpace(s: Option<string>)
  {
    s.None? || forall c <- s.value :: IsWhiteSpace(c)
  }

  /** A blank value is exactly one that trims to nothing. */
  lemma BlankIffTrimEmpty(s: string)
    ensures IsNullOrWhiteSpace(Some(s)) <==> Trim(s) == ""
  {
    var k := |s| - |StripStart(s, IsWhiteSpace)|;
    StripSlice(s, IsWhiteSpace);
    if Trim(s) == "" {
      forall c | c in s ensures IsWhiteSpace(c) {
        var i :| 0 <= i < |s| && s[i] == c;
        assert i < k || k <= i;
      }
    }
  }

  /** Every `c` of `ReplaceEach(s, c, [b, c])` is preceded by `b`: the
      replacement escapes each occurrence. */
  lemma {:induction false} ReplaceEachEscapes(s: string, c: char, b: char)
    requires b != c
    ensures forall i :: 0 <= i < |ReplaceEach(s, c, [b, c])| && ReplaceEach(s, c, [b, c])[i] == c ==>
      i > 0 && ReplaceEach(s, c, [b, c])[i - 1] == b
  {
    if s != [] {
      ReplaceEachEscapes(s[1..], c, b);
      var head := if s[0] == c then [b, c] else [s[0]];
      var rest := ReplaceEach(s[1..], c, [b, c]);
      assert forall j :: 0 <= j < |rest| && rest[j] == c ==> j > 0 && rest[j - 1] == b;
      assert ReplaceEach(s, c, [b, c]) == head + rest;
      forall i | 0 <= i < |head + rest| && (head + rest)[i] == c
        ensures i > 0 && (head + rest)[i - 1] == b
      {
        if i < |head| {
          assert s[0] == c && i == 1;
        } else {
          assert (head + rest)[i] == rest[i - |head|];
          if i - |head| > 0 {
            assert (head + rest)[i - 1] == rest[i - |head| - 1];
          }
        }
      }
    }
  }

  /** Ordinal string order: the first differing character decides, and a
      proper prefix comes first. */
  predicate Below(a: string, b: string)
  {
    if a == [] then b != []
    else b != [] && (a[0] < b[0] || (a[0] == b[0] && Below(a[1..], b[1..])))
  }

  lemma {:induction false} BelowIrreflexive(a: string)
    ensures !Below(a, a)
  {
    if a != [] {
      BelowIrreflexive(a[1..]);
    }
  }

  lemma {:induction false} BelowTransitive(a: string, b: string, c: string)
    requires Below(a, b) && Below(b, c)
    ensures Below(a, c)
  {
    if a != [] && a[0] == b[0] && b[0] == c[0] {
      BelowTransitive(a[1..], b[1..], c[1..]);
    }
  }

  lemma {:induction false} BelowTotal(a: string, b: string)
    requires a != b
    ensures Below(a, b) || Below(b, a)
  {
    if a != [] && b != [] && a[0] == b[0] {
      BelowTotal(a[1..], b[1..]);
    }
  }

  /** `Path.IsPathRooted` for the Unix directory separator. */
  predicate IsPathRooted(path: string)
  {
    path != [] && path[0] == '/'
  }

  /** `Path.Combine(dir, file)`: a rooted `file` replaces `dir`, an empty one
      leaves `dir`; otherwise the two are joined with one separator. */
  function Combine(dir: string, file: string): (r: string)
    ensures IsPathRooted(file) ==> r == file
    ensures !IsPathRooted(file) && dir != [] ==> |r| >= |dir| + |file| && r[..|dir|] == dir && r[|r| - |file|..] == file
    ensures file == [] ==> r == dir
  {
    if IsPathRooted(file) || dir == [] then file
    else if file == [] then dir
    else if dir[|dir| - 1] == '/' then dir + file
    else dir + "/" + file
  }
}
