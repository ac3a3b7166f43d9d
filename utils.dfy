/** The helpers shared by the three processors: the word-token counter and the
    structure normaliser. */
module Utils {

  import opened Strings
  import opened Document

  /** `re.findall(r'\w+', text)`: the maximal runs of word characters, left to
      right. What counts as a word character (`\w`) is the parameter `isWord`. */
  function Tokens(s: string, isWord: char -> bool): seq<string>
    decreases |s|
  {
    if s == [] then []
    else if !isWord(s[0]) then Tokens(s[1..], isWord)
    else
      var k := PrefixRun(s, isWord);
      [s[..k]] + Tokens(s[k..], isWord)
  }

  /** Every token is a non-empty run of word characters. */
  lemma {:induction false} TokensAreWords(s: string, isWord: char -> bool)
    ensures forall k :: 0 <= k < |Tokens(s, isWord)| ==> Tokens(s, isWord)[k] != []
    ensures forall k, i :: 0 <= k < |Tokens(s, isWord)| && 0 <= i < |Tokens(s, isWord)[k]| ==>
              isWord(Tokens(s, isWord)[k][i])
    decreases |s|
  {
    if s != [] {
      if !isWord(s[0]) {
        TokensAreWords(s[1..], isWord);
      } else {
        var k := PrefixRun(s, isWord);
        TokensAreWords(s[k..], isWord);
        var rest := Tokens(s[k..], isWord);
        assert Tokens(s, isWord) == [s[..k]] + rest;
        forall j | 0 <= j < |Tokens(s, isWord)|
          ensures Tokens(s, isWord)[j] != [] && forall i :: 0 <= i < |Tokens(s, isWord)[j]| ==> isWord(Tokens(s, isWord)[j][i])
        {
          if j > 0 {
            assert Tokens(s, isWord)[j] == rest[j - 1];
          }
        }
      }
    }
  }

  /** `simple_token_count(text)`: the number of word runs. Every processor's
      `calculate_token_count` returns exactly this. */
  function TokenCount(s: string, isWord: char -> bool): nat
  {
    |Tokens(s, isWord)|
  }

  /** An independent count of the same runs: the positions where a run of word
      characters starts, scanned from the end. */
  function RunStarts(s: string, isWord: char -> bool): nat
  {
    if s == [] then 0
    else
      var n := |s|;
      RunStarts(s[..n - 1], isWord) +
        (if isWord(s[n - 1]) && (n == 1 || !isWord(s[n - 2])) then 1 else 0)
  }

  /** Appending one character adds a token exactly when it opens a new run. */
  lemma {:induction false} TokenCountSnoc(s: string, c: char, isWord: char -> bool)
    ensures TokenCount(s + [c], isWord) ==
            TokenCount(s, isWord) +
              (if isWord(c) && (s == [] || !isWord(s[|s| - 1])) then 1 else 0)
    decreases |s|
  {
    var x := s + [c];
    if s == [] {
      assert x == [c];
      if isWord(c) {
        PrefixRunIs(x, isWord, 1);
        assert x[1..] == [];
      } else {
        assert x[1..] == [];
      }
    } else if !isWord(s[0]) {
      assert x[1..] == s[1..] + [c];
      TokenCountSnoc(s[1..], c, isWord);
    } else {
      var k := PrefixRun(s, isWord);
      if k < |s| {
        PrefixRunIs(x, isWord, k);
        assert x[..k] == s[..k];
        assert x[k..] == s[k..] + [c];
        TokenCountSnoc(s[k..], c, isWord);
      } else if isWord(c) {
        assert forall i :: 0 <= i < |s| ==> x[i] == s[i];
        PrefixRunIs(x, isWord, |x|);
        assert x[..|x|] == x && x[|x|..] == [];
        assert s[..k] == s && s[k..] == [];
      } else {
        assert forall i :: 0 <= i < |s| ==> x[i] == s[i];
        PrefixRunIs(x, isWord, k);
        assert x[..k] == s[..k] && x[k..] == [c];
        assert [c][1..] == [];
        assert Tokens([c], isWord) == [];
        assert s[k..] == [];
      }
    }
  }

  /** The token count equals the number of run starts. */
  lemma {:induction false} TokenCountIsRunStarts(s: string, isWord: char -> bool)
    ensures TokenCount(s, isWord) == RunStarts(s, isWord)
    decreases |s|
  {
    if s != [] {
      var n := |s|;
      TokenCountIsRunStarts(s[..n - 1], isWord);
      TokenCountSnoc(s[..n - 1], s[n - 1], isWord);
      assert s[..n - 1] + [s[n - 1]] == s;
    }
  }

  /** No tokens exactly when no character is a word character. */
  lemma {:induction false} TokenCountZeroIff(s: string, isWord: char -> bool)
    ensures TokenCount(s, isWord) == 0 <==> forall i :: 0 <= i < |s| ==> !isWord(s[i])
    decreases |s|
  {
    if s != [] && !isWord(s[0]) {
      TokenCountZeroIff(s[1..], isWord);
      assert forall i :: 1 <= i < |s| ==> s[i] == s[1..][i - 1];
    }
  }

  /** Runs are separated by at least one non-word character, so a text of length
      n holds at most (n + 1) / 2 of them; one that starts with a separator at
      most n / 2. */
  lemma {:induction false} TokenCountBound(s: string, isWord: char -> bool)
    ensures 2 * TokenCount(s, isWord) <= |s| + 1
    ensures s != [] && !isWord(s[0]) ==> 2 * TokenCount(s, isWord) <= |s|
    decreases |s|
  {
    if s != [] {
      if !isWord(s[0]) {
        TokenCountBound(s[1..], isWord);
      } else {
        var k := PrefixRun(s, isWord);
        TokenCountBound(s[k..], isWord);
      }
    }
  }

  /** A non-word separator splits the tokens of a joined text exactly. */
  lemma {:induction false} TokensAroundSeparator(a: string, sep: char, b: string, isWord: char -> bool)
    requires !isWord(sep)
    ensures Tokens(a + [sep] + b, isWord) == Tokens(a, isWord) + Tokens(b, isWord)
    decreases |a|
  {
    var x := a + [sep] + b;
    if a == [] {
      assert x[1..] == b;
    } else if !isWord(a[0]) {
      assert x[1..] == a[1..] + [sep] + b;
      TokensAroundSeparator(a[1..], sep, b, isWord);
    } else {
      var k := PrefixRun(a, isWord);
      assert x[k] == if k < |a| then a[k] else sep;
      PrefixRunIs(x, isWord, k);
      assert x[..k] == a[..k];
      assert x[k..] == a[k..] + [sep] + b;
      TokensAroundSeparator(a[k..], sep, b, isWord);
    }
  }

  /** A text that ends in a non-word character can be followed by anything
      without merging tokens. */
  lemma TokensConcat(a: string, b: string, isWord: char -> bool)
    requires a == [] || !isWord(a[|a| - 1])
    ensures Tokens(a + b, isWord) == Tokens(a, isWord) + Tokens(b, isWord)
  {
    if a != [] {
      var n := |a|;
      var front := a[..n - 1];
      TokensAroundSeparator(front, a[n - 1], [], isWord);
      assert front + [a[n - 1]] + [] == a;
      assert Tokens([], isWord) == [];
      assert Tokens(a, isWord) == Tokens(front, isWord);
      TokensAroundSeparator(front, a[n - 1], b, isWord);
      assert front + [a[n - 1]] + b == a + b;
    } else {
      assert a + b == b;
    }
  }

  /** The text a processor builds with `text += part + "\n"` over its parts. */
  function Lines(parts: seq<string>): (r: string)
    ensures r == [] || r[|r| - 1] == '\n'
  {
    if parts == [] then ""
    else Lines(parts[..|parts| - 1]) + parts[|parts| - 1] + "\n"
  }

  /** The built text is whitespace only exactly when every part is. */
  lemma {:induction false} LinesBlankIff(parts: seq<string>)
    ensures Blank(Lines(parts)) <==> forall i :: 0 <= i < |parts| ==> Blank(parts[i])
  {
    if parts != [] {
      var n := |parts|;
      var init := parts[..n - 1];
      var last := parts[n - 1];
      LinesBlankIff(init);
      assert Lines(parts) == Lines(init) + last + "\n";
      BlankConcat(Lines(init), last);
      BlankConcat(Lines(init) + last, "\n");
      assert Blank("\n");
      if Blank(Lines(parts)) {
        forall i | 0 <= i < n ensures Blank(parts[i]) {
          if i < n - 1 {
            assert init[i] == parts[i];
          }
        }
      }
      if forall i :: 0 <= i < n ==> Blank(parts[i]) {
        forall i | 0 <= i < n - 1 ensures Blank(init[i]) {
          assert init[i] == parts[i];
        }
      }
    }
  }

  /** The sum of the token counts of the parts. */
  function TotalTokenCount(parts: seq<string>, isWord: char -> bool): nat
  {
    if parts == [] then 0
    else TotalTokenCount(parts[..|parts| - 1], isWord) + TokenCount(parts[|parts| - 1], isWord)
  }

  /** Since the newline is not a word character, the token count of the built
      text is the sum of the token counts of its parts. */
  lemma {:induction false} TokenCountOfLines(parts: seq<string>, isWord: char -> bool)
    requires !isWord('\n')
    ensures TokenCount(Lines(parts), isWord) == TotalTokenCount(parts, isWord)
  {
    if parts != [] {
      var n := |parts|;
      var init := parts[..n - 1];
      var front := Lines(init);
      TokenCountOfLines(init, isWord);
      TokensConcat(front, parts[n - 1], isWord);
      TokensAroundSeparator(front + parts[n - 1], '\n', [], isWord);
      assert Lines(parts) == front + parts[n - 1] + ['\n'] + [];
    }
  }

  /** `normalize_structure`: the structure is passed through unchanged (so
      applying it twice is the same as once). */
  function NormalizeStructure(structure: Structure): (r: Structure)
    ensures r == structure
  {
    structure
  }
}
