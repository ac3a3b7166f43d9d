/** The handful of Python string operations the program relies on:
    `str.isspace`/`str.strip`, `str.find`/`str.rfind`, `startswith`/`endswith`,
    slicing `s[:n]`, `sep.join(...)` and `os.path.basename`. */
module Strings {

  import opened Common

  /** Python's `str.isspace` for one character: the ASCII controls \t \n \v \f \r,
      the separators \x1c-\x1f, the space, and the Unicode space separators. */
  predicate IsSpace(c: char)
  {
    || c == ' '
    || ('\t' <= c <= '\r')
    || ('\U{1c}' <= c <= '\U{1f}')
    || c == '\U{85}' || c == '\U{a0}' || c == '\U{1680}'
    || ('\U{2000}' <= c <= '\U{200a}')
    || c == '\U{2028}' || c == '\U{2029}' || c == '\U{202f}'
    || c == '\U{205f}' || c == '\U{3000}'
  }

  /** The regular-expression class `[a-zA-Z]`. */
  predicate IsAsciiLetter(c: char)
  {
    ('a' <= c <= 'z') || ('A' <= c <= 'Z')
  }

  /** Every character of `s` is whitespace (true of the empty string). */
  predicate Blank(s: string)
  {
    forall i :: 0 <= i < |s| ==> IsSpace(s[i])
  }

  /** Neither end of `s` is whitespace: `s` is its own `strip()`. */
  predicate IsStripped(s: string)
  {
    s == [] || (!IsSpace(s[0]) && !IsSpace(s[|s| - 1]))
  }

  /** Length of the longest prefix of `s` whose characters all satisfy `p`. */
  function PrefixRun(s: string, p: char -> bool): (k: nat)
    ensures k <= |s|
    ensures forall i :: 0 <= i < k ==> p(s[i])
    ensures k < |s| ==> !p(s[k])
  {
    if s != [] && p(s[0]) then 1 + PrefixRun(s[1..], p) else 0
  }

  /** Length of the longest suffix of `s` whose characters all satisfy `p`. */
  function SuffixRun(s: string, p: char -> bool): (k: nat)
    ensures k <= |s|
    ensures forall i :: |s| - k <= i < |s| ==> p(s[i])
    ensures k < |s| ==> !p(s[|s| - 1 - k])
  {
    if s != [] && p(s[|s| - 1]) then 1 + SuffixRun(s[..|s| - 1], p) else 0
  }

  /** The run is determined by where it stops. */
  lemma PrefixRunIs(s: string, p: char -> bool, k: nat)
    requires k <= |s|
    requires forall i :: 0 <= i < k ==> p(s[i])
    requires k < |s| ==> !p(s[k])
    ensures PrefixRun(s, p) == k
  {
  }

  lemma SuffixRunIs(s: string, p: char -> bool, k: nat)
    requires k <= |s|
    requires forall i :: |s| - k <= i < |s| ==> p(s[i])
    requires k < |s| ==> !p(s[|s| - 1 - k])
    ensures SuffixRun(s, p) == k
  {
  }

  /** `s.lstrip()` */
  function TrimLeft(s: string): (r: string)
    ensures |r| <= |s|
    ensures r == [] || !IsSpace(r[0])
  {
    s[PrefixRun(s, IsSpace)..]
  }

  /** What `lstrip` removes is whitespace, and what it keeps is a suffix. */
  lemma TrimLeftRemovesBlank(s: string)
    ensures var r := TrimLeft(s);
            r == s[|s| - |r|..] && Blank(s[..|s| - |r|])
  {
  }

  /** `s.rstrip()` */
  function TrimRight(s: string): (r: string)
    ensures |r| <= |s|
    ensures r == [] || !IsSpace(r[|r| - 1])
  {
    s[..|s| - SuffixRun(s, IsSpace)]
  }

  /** What `rstrip` removes is whitespace, and what it keeps is a prefix. */
  lemma TrimRightRemovesBlank(s: string)
    ensures var r := TrimRight(s);
            r == s[..|r|] && Blank(s[|r|..])
  {
  }

  /** `s.strip()`: both ends of the result are non-whitespace. */
  function Strip(s: string): (r: string)
    ensures |r| <= |s|
    ensures IsStripped(r)
  {
    var t := TrimLeft(s);
    var r := TrimRight(t);
    TrimRightRemovesBlank(t);
    assert r != [] ==> r[0] == t[0];
    r
  }

  /** `strip()` keeps a contiguous piece of its argument and drops only
      whitespace on either side of it. */
  lemma StripKeepsMiddle(s: string)
    ensures exists i :: 0 <= i <= |s| - |Strip(s)| && Strip(s) == s[i..i + |Strip(s)|] &&
                        Blank(s[..i]) && Blank(s[i + |Strip(s)|..])
  {
    var t := TrimLeft(s);
    var r := Strip(s);
    TrimLeftRemovesBlank(s);
    TrimRightRemovesBlank(t);
    var i := |s| - |t|;
    assert r == t[..|r|];
    assert s[i..i + |r|] == r;
    assert s[i + |r|..] == t[|r|..];
  }

  /** `strip()` adds no character: a character absent from `s` is absent from
      its stripped form. */
  lemma StripAvoids(s: string, c: char)
    requires forall i :: 0 <= i < |s| ==> s[i] != c
    ensures forall i :: 0 <= i < |Strip(s)| ==> Strip(s)[i] != c
  {
    var t := TrimLeft(s);
    var r := Strip(s);
    TrimLeftRemovesBlank(s);
    TrimRightRemovesBlank(t);
    var d := |s| - |t|;
    forall i | 0 <= i < |r| ensures r[i] != c {
      assert r[i] == t[i] == s[d + i];
    }
  }

  /** Whitespace-only strings concatenate to whitespace-only strings, and only they do. */
  lemma BlankConcat(a: string, b: string)
    ensures Blank(a + b) <==> Blank(a) && Blank(b)
  {
    var x := a + b;
    assert forall i :: 0 <= i < |a| ==> x[i] == a[i];
    assert forall i :: 0 <= i < |b| ==> x[|a| + i] == b[i];
  }

  /** `not s.strip()` holds exactly for all-whitespace strings. */
  lemma StripEmptyIffBlank(s: string)
    ensures Strip(s) == [] <==> Blank(s)
  {
    var t := TrimLeft(s);
    if Blank(s) {
      PrefixRunIs(s, IsSpace, |s|);
      assert t == [];
    }
    if Strip(s) == [] {
      TrimLeftRemovesBlank(s);
      TrimRightRemovesBlank(t);
      assert t == [];
      assert s[..|s|] == s;
    }
  }

  /** Stripping removes exactly the whitespace padding around a stripped core. */
  lemma StripPadded(w1: string, s: string, w2: string)
    requires Blank(w1) && Blank(w2) && IsStripped(s)
    ensures Strip(w1 + s + w2) == s
  {
    var x := w1 + s + w2;
    if s == [] {
      assert x == w1 + w2;
      assert Blank(x) by {
        forall i | 0 <= i < |x| ensures IsSpace(x[i]) {
          if i < |w1| { assert x[i] == w1[i]; } else { assert x[i] == w2[i - |w1|]; }
        }
      }
      StripEmptyIffBlank(x);
    } else {
      assert x[|w1|] == s[0];
      PrefixRunIs(x, IsSpace, |w1|);
      assert TrimLeft(x) == s + w2;
      var y := s + w2;
      assert y[|y| - 1 - |w2|] == s[|s| - 1];
      SuffixRunIs(y, IsSpace, |w2|);
      assert TrimRight(y) == s;
    }
  }

  /** `s` is its stripped form with whitespace on either side. */
  lemma StripSplit(s: string) returns (a: string, b: string)
    ensures Blank(a) && Blank(b) && s == a + TrimRight(TrimLeft(s)) + b
  {
    var t := TrimLeft(s);
    var m := TrimRight(t);
    TrimLeftRemovesBlank(s);
    TrimRightRemovesBlank(t);
    a, b := s[..|s| - |t|], t[|m|..];
    assert t == m + b;
    assert s == a + t;
  }

  /** Concatenation regrouped around a middle piece. */
  lemma Regroup(w1: string, a: string, m: string, b: string, w2: string)
    ensures w1 + (a + m + b) + w2 == (w1 + a) + m + (b + w2)
  {
  }

  /** Whitespace added on either side does not change what `strip()` keeps. */
  lemma StripBlankPadding(w1: string, s: string, w2: string)
    requires Blank(w1) && Blank(w2)
    ensures Strip(w1 + s + w2) == Strip(s)
  {
    var m := Strip(s);
    var a, b := StripSplit(s);
    assert m == TrimRight(TrimLeft(s));
    var p, q := w1 + a, b + w2;
    Regroup(w1, a, m, b, w2);
    BlankConcat(w1, a);
    BlankConcat(b, w2);
    StripPadded(p, m, q);
  }

  /** A string that is already stripped is left alone. */
  lemma StripStripped(s: string)
    requires IsStripped(s)
    ensures Strip(s) == s
  {
    StripPadded([], s, []);
    assert [] + s + [] == s;
  }

  predicate StartsWith(s: string, prefix: string)
  {
    |prefix| <= |s| && s[..|prefix|] == prefix
  }

  predicate EndsWith(s: string, suffix: string)
  {
    |suffix| <= |s| && s[|s| - |suffix|..] == suffix
  }

  /** `s[:n]` for a non-negative n. */
  function Take(s: string, n: nat): (r: string)
    ensures |r| == if n <= |s| then n else |s|
    ensures r == s[..|r|]
  {
    if n <= |s| then s[..n] else s
  }

  /** `s.find(c)`: the first index holding `c`, or -1. */
  function Find(s: string, c: char): (r: int)
    ensures -1 <= r < |s|
    ensures r == -1 <==> forall i :: 0 <= i < |s| ==> s[i] != c
    ensures 0 <= r ==> s[r] == c && forall i :: 0 <= i < r ==> s[i] != c
  {
    if s == [] then -1
    else if s[0] == c then 0
    else
      var k := Find(s[1..], c);
      assert forall i :: 1 <= i < |s| ==> s[i] == s[1..][i - 1];
      if k < 0 then -1 else k + 1
  }

  /** `s.rfind(c)`: the last index holding `c`, or -1. */
  function RFind(s: string, c: char): (r: int)
    ensures -1 <= r < |s|
    ensures r == -1 <==> forall i :: 0 <= i < |s| ==> s[i] != c
    ensures 0 <= r ==> s[r] == c && forall i :: r < i < |s| ==> s[i] != c
  {
    if s == [] then -1
    else if s[|s| - 1] == c then |s| - 1
    else RFind(s[..|s| - 1], c)
  }

  /** The text from the first `{` to the last `}` (inclusive), when some `{`
      comes before some `}`: `raw[raw.find('{'):raw.rfind('}') + 1]`. */
  function BraceSpan(s: string): (r: Option<string>)
    ensures r.Some? <==> exists i, j :: 0 <= i < j < |s| && s[i] == '{' && s[j] == '}'
    ensures r.Some? ==> exists i, j :: 0 <= i < j <= |s| && r.value == s[i..j] &&
                          (forall k :: 0 <= k < i ==> s[k] != '{') &&
                          (forall k :: j <= k < |s| ==> s[k] != '}')
    ensures r.Some? ==> 2 <= |r.value| && r.value[0] == '{' && r.value[|r.value| - 1] == '}'
  {
    var start := Find(s, '{');
    var end := RFind(s, '}') + 1;
    if 0 <= start && start < end then
      assert s[start] != s[end - 1];
      assert 0 <= start < end - 1 < |s| && s[start] == '{' && s[end - 1] == '}';
      Some(s[start..end])
    else
      None
  }

  /** `sep.join(xs)` */
  function Join(sep: string, xs: seq<string>): (r: string)
    ensures xs == [] ==> r == ""
    ensures |xs| == 1 ==> r == xs[0]
  {
    if xs == [] then ""
    else if |xs| == 1 then xs[0]
    else Join(sep, xs[..|xs| - 1]) + sep + xs[|xs| - 1]
  }

  /** Joining one more element appends the separator and the element. */
  lemma JoinSnoc(sep: string, xs: seq<string>, x: string)
    requires xs != []
    ensures Join(sep, xs + [x]) == Join(sep, xs) + sep + x
  {
    assert (xs + [x])[..|xs|] == xs;
  }

  /** The total length of the elements. */
  function TotalLength(xs: seq<string>): nat
  {
    if xs == [] then 0 else TotalLength(xs[..|xs| - 1]) + |xs[|xs| - 1]|
  }

  /** The joined text holds every element and one separator between each
      consecutive pair. */
  lemma {:induction false} JoinLength(sep: string, xs: seq<string>)
    requires xs != []
    ensures |Join(sep, xs)| == TotalLength(xs) + (|xs| - 1) * |sep|
  {
    if |xs| > 1 {
      var init := xs[..|xs| - 1];
      JoinLength(sep, init);
      assert Join(sep, xs) == Join(sep, init) + sep + xs[|xs| - 1];
      assert TotalLength(xs) == TotalLength(init) + |xs[|xs| - 1]|;
      assert (|xs| - 1) * |sep| == (|init| - 1) * |sep| + |sep|;
    }
  }

  /** `os.path.basename(path)`: the text after the last `/`. */
  function Basename(path: string): (r: string)
    ensures |r| <= |path| && r == path[|path| - |r|..]
    ensures forall i :: 0 <= i < |r| ==> r[i] != '/'
    ensures |r| < |path| ==> path[|path| - |r| - 1] == '/'
  {
    path[RFind(path, '/') + 1..]
  }

  /** Letters are changed to lower case one ASCII character at a time;
      every other character is kept. */
  function AsciiLower(s: string): (r: string)
    ensures |r| == |s|
    ensures forall i :: 0 <= i < |s| ==>
              r[i] == if 'A' <= s[i] <= 'Z' then (s[i] as int + 32) as char else s[i]
  {
    if s == [] then ""
    else
      var c := s[0];
      [if 'A' <= c <= 'Z' then (c as int + 32) as char else c] + AsciiLower(s[1..])
  }
}
