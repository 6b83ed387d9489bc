/** StringUtilities.cs: quote escaping for command lines, and string reversal. */
module StringUtilities {
  import opened Wrappers
  import opened Seqs
  import opened Text

  /** `EscapeQuotes`: two successive `Replace` calls, first `'` by `\'`, then `"` by `\"`. */
  function EscapeQuotes(s: string): string
  {
    ReplaceAll(ReplaceAll(s, "'", "\\'"), "\"", "\\\"")
  }

  /** What one character of the input becomes. */
  function EscapeChar(c: char): string
  {
    if c == '\'' then "\\'" else if c == '"' then "\\\"" else [c]
  }

  /** Character-wise escaping, the reference the two replacements are compared with. */
  function Escaped(s: string): string
  {
    if s == [] then [] else EscapeChar(s[0]) + Escaped(s[1..])
  }

  /** Reading escape sequences back: `\'` and `\"` stand for the quote, every
      other character for itself. */
  function Unescape(t: string): string
    decreases |t|
  {
    if |t| >= 2 && t[0] == '\\' && (t[1] == '\'' || t[1] == '"') then [t[1]] + Unescape(t[2..])
    else if t == [] then []
    else [t[0]] + Unescape(t[1..])
  }

  lemma {:induction false} EscapedAppend(a: string, b: string)
    ensures Escaped(a + b) == Escaped(a) + Escaped(b)
  {
    if a == [] {
      assert a + b == b;
    } else {
      assert (a + b)[1..] == a[1..] + b;
      EscapedAppend(a[1..], b);
    }
  }

  /** The second replacement only sees the double quotes of the input: the first
      one introduces backslashes and apostrophes, never a double quote. */
  lemma {:induction false} EscapeQuotesPerChar(s: string)
    ensures EscapeQuotes(s) == Escaped(s)
  {
    ReplaceCharIsEach(s, '\'', "\\'");
    var t := ReplaceEach(s, '\'', "\\'");
    ReplaceCharIsEach(t, '"', "\\\"");
    ApostrophesThenQuotes(s);
  }

  lemma {:induction false} ApostrophesThenQuotes(s: string)
    ensures ReplaceEach(ReplaceEach(s, '\'', "\\'"), '"', "\\\"") == Escaped(s)
  {
    if s != [] {
      ApostrophesThenQuotes(s[1..]);
      var head := if s[0] == '\'' then "\\'" else [s[0]];
      ReplaceEachAppend(head, ReplaceEach(s[1..], '\'', "\\'"), '"', "\\\"");
      if s[0] == '\'' {
        assert ReplaceEach(head, '"', "\\\"") == "\\'" by {
          assert head == ['\\'] + ['\''];
        }
      }
    }
  }

  /** The output is the input plus one backslash per quote character. */
  lemma {:induction false} EscapeQuotesLength(s: string)
    ensures |EscapeQuotes(s)| == |s| + Count(s, '\'') + Count(s, '"')
  {
    EscapeQuotesPerChar(s);
    EscapedLength(s);
  }

  lemma {:induction false} EscapedLength(s: string)
    ensures |Escaped(s)| == |s| + Count(s, '\'') + Count(s, '"')
  {
    if s != [] {
      EscapedLength(s[1..]);
    }
  }

  /** An escaped text never begins with a bare quote. */
  lemma EscapedStart(s: string)
    ensures Escaped(s) == [] || (Escaped(s)[0] != '\'' && Escaped(s)[0] != '"')
  {
  }

  /** Every double quote of an escaped text is preceded by a backslash. */
  lemma {:induction false} EscapedQuotesPreceded(s: string)
    ensures forall i :: 0 <= i < |Escaped(s)| && Escaped(s)[i] == '"' ==>
      i > 0 && Escaped(s)[i - 1] == '\\'
  {
    if s != [] {
      EscapedQuotesPreceded(s[1..]);
      var head := EscapeChar(s[0]);
      var rest := Escaped(s[1..]);
      assert Escaped(s) == head + rest;
      forall i | 0 <= i < |head + rest| && (head + rest)[i] == '"'
        ensures i > 0 && (head + rest)[i - 1] == '\\'
      {
        if i >= |head| {
          assert (head + rest)[i] == rest[i - |head|];
          if i - |head| > 0 {
            assert (head + rest)[i - 1] == rest[i - |head| - 1];
          }
        }
      }
    }
  }

  /** Escaping loses nothing: reading the escapes back gives the original text,
      so distinct arguments stay distinct on the command line. */
  lemma {:induction false} UnescapeEscapeQuotes(s: string)
    ensures Unescape(EscapeQuotes(s)) == s
  {
    EscapeQuotesPerChar(s);
    UnescapeEscaped(s);
  }

  lemma {:induction false} UnescapeEscaped(s: string)
    ensures Unescape(Escaped(s)) == s
  {
    if s != [] {
      UnescapeEscaped(s[1..]);
      var rest := Escaped(s[1..]);
      EscapedStart(s[1..]);
      var t := EscapeChar(s[0]) + rest;
      assert Escaped(s) == t;
      if s[0] == '\'' || s[0] == '"' {
        assert t[2..] == rest;
      } else {
        assert t[1..] == rest;
        assert t[0] == s[0];
        if s[0] == '\\' {
          assert |t| >= 2 ==> t[1] == rest[0];
        }
      }
    }
  }

  /** `Array.Reverse` on the characters. */
  function Reversed(s: string): (r: string)
    ensures |r| == |s|
  {
    seq(|s|, i requires 0 <= i < |s| => s[|s| - 1 - i])
  }

  /** `ReverseString`: null or empty is returned as is; otherwise the reversed
      characters with apostrophes trimmed from both ends. */
  function ReverseSpec(str: Option<string>): Option<string>
  {
    if IsNullOrEmpty(str) then str else Some(TrimChar(Reversed(str.value), '\''))
  }

  /** `ReverseString`, reversing a char array in place as the source does. */
  method ReverseString(str: Option<string>) returns (r: Option<string>)
    ensures r == ReverseSpec(str)
  {
    if IsNullOrEmpty(str) {
      return str;
    }
    var s := str.value;
    var chars := new char[|s|](i requires 0 <= i < |s| => s[i]);
    var n := chars.Length;
    var i := 0;
    while i < n / 2
      invariant 0 <= i <= n / 2
      invariant forall k :: 0 <= k < i ==> chars[k] == s[n - 1 - k] && chars[n - 1 - k] == s[k]
      invariant forall k :: i <= k < n - i ==> chars[k] == s[k]
    {
      chars[i], chars[n - 1 - i] := chars[n - 1 - i], chars[i];
      i := i + 1;
    }
    assert chars[..] == Reversed(s);
    r := Some(TrimChar(chars[..], '\''));
  }

  lemma ReversedTwice(s: string)
    ensures Reversed(Reversed(s)) == s
  {
  }

  /** For a text without apostrophes, reversing twice gives the text back. */
  lemma ReverseTwiceWithoutApostrophes(s: string)
    requires '\'' !in s
    ensures ReverseSpec(ReverseSpec(Some(s))) == Some(s)
  {
    if s != [] {
      var r := Reversed(s);
      assert r[0] == s[|s| - 1] && r[|r| - 1] == s[0];
      StripKeeps(r, x => x == '\'');
      assert TrimChar(r, '\'') == r;
      ReversedTwice(s);
      StripKeeps(s, x => x == '\'');
    }
  }
}
