/**
 The Python string operations the GN helpers use: str.replace, str.strip,
 str.startswith, `s.split(c)[0]`, `s.split(c)[-1]` and counting a character.
 */
module PyStrings {

  /** str.isspace() for one character: the characters Python 3 treats as whitespace. */
  predicate IsPySpace(ch: char) {
    || '\t' <= ch <= '\r'
    || '\U{1C}' <= ch <= ' '
    || ch == '\U{85}' || ch == '\U{A0}' || ch == '\U{1680}'
    || '\U{2000}' <= ch <= '\U{200A}'
    || ch == '\U{2028}' || ch == '\U{2029}' || ch == '\U{202F}' || ch == '\U{205F}' || ch == '\U{3000}'
  }

  predicate AllPySpace(s: string) {
    forall i :: 0 <= i < |s| ==> IsPySpace(s[i])
  }

  /** str.startswith(prefix). */
  predicate StartsWith(s: string, prefix: string) {
    |prefix| <= |s| && s[..|prefix|] == prefix
  }

  /** `pattern` occurs somewhere in `s`. */
  predicate Contains(s: string, pattern: string) {
    StartsWith(s, pattern) || (|s| > 0 && Contains(s[1..], pattern))
  }

  /**
   str.replace(pattern, replacement) for a non-empty `pattern`: occurrences are replaced from
   left to right, without overlapping. The result has no character that is in
   neither the input nor the replacement.
   */
  function Replace(s: string, pattern: string, replacement: string): (r: string)
    requires |pattern| > 0
    ensures forall ch :: ch in r ==> ch in s || ch in replacement
    decreases |s|
  {
    if |s| < |pattern| then s
    else if s[..|pattern|] == pattern then replacement + Replace(s[|pattern|..], pattern, replacement)
    else [s[0]] + Replace(s[1..], pattern, replacement)
  }

  /** The number of whitespace characters `s` starts with. */
  function LeadingSpaces(s: string): (n: nat)
    ensures n <= |s| && AllPySpace(s[..n])
    ensures n == |s| || !IsPySpace(s[n])
    decreases |s|
  {
    if s != [] && IsPySpace(s[0]) then
      var n := 1 + LeadingSpaces(s[1..]);
      assert s[..n] == [s[0]] + s[1..][..n - 1];
      n
    else 0
  }

  /** The number of whitespace characters `s` ends with. */
  function TrailingSpaces(s: string): (n: nat)
    ensures n <= |s| && AllPySpace(s[|s| - n..])
    ensures n == |s| || !IsPySpace(s[|s| - n - 1])
    decreases |s|
  {
    if s != [] && IsPySpace(s[|s| - 1]) then
      var n := 1 + TrailingSpaces(s[..|s| - 1]);
      assert s[|s| - n..] == s[..|s| - 1][|s| - n..] + [s[|s| - 1]];
      n
    else 0
  }

  /**
   str.strip(): the slice between the leading and the trailing whitespace. When
   `s` is all whitespace the two runs overlap and the result is empty.
   */
  function Strip(s: string): (r: string)
    ensures r == [] || (!IsPySpace(r[0]) && !IsPySpace(r[|r| - 1]))
    ensures |r| <= |s|
    ensures r == [] <==> AllPySpace(s)
    ensures var i := LeadingSpaces(s);
      i + |r| <= |s| && r == s[i..i + |r|] && AllPySpace(s[..i]) && AllPySpace(s[i + |r|..])
  {
    var i := LeadingSpaces(s);
    if i == |s| then []
    else
      var t := TrailingSpaces(s);
      s[i..|s| - t]
  }

  /** `s.split(sep)[0]`: the text before the first `sep`, or all of `s`. */
  function BeforeFirst(s: string, sep: char): (r: string)
    ensures r <= s
    ensures sep !in r
    ensures |r| < |s| ==> s[|r|] == sep
  {
    if s == [] || s[0] == sep then [] else [s[0]] + BeforeFirst(s[1..], sep)
  }

  /** `s.split(sep)[-1]`: the text after the last `sep`, or all of `s`. */
  function AfterLast(s: string, sep: char): (r: string)
    ensures |r| <= |s| && r == s[|s| - |r|..]
    ensures sep !in r
    ensures |r| < |s| ==> s[|s| - |r| - 1] == sep
  {
    if s == [] || s[|s| - 1] == sep then []
    else
      var r := AfterLast(s[..|s| - 1], sep) + [s[|s| - 1]];
      assert s[|s| - |r|..] == s[..|s| - 1][|s| - |r|..] + [s[|s| - 1]];
      r
  }

  /** The number of times `ch` occurs in `s`. */
  function CountChar(s: string, ch: char): (n: nat)
    ensures n == 0 <==> ch !in s
  {
    if s == [] then 0 else (if s[0] == ch then 1 else 0) + CountChar(s[1..], ch)
  }

  /** Removing every occurrence of a character leaves none. */
  lemma {:induction false} ReplaceRemovesChar(s: string, ch: char)
    ensures ch !in Replace(s, [ch], "")
    decreases |s|
  {
    if |s| >= 1 {
      ReplaceRemovesChar(s[1..], ch);
      if s[..1] != [ch] {
        assert s[0] != ch;
      }
    }
  }

  /** Replacing a pattern that does not occur changes nothing. */
  lemma {:induction false} ReplaceAbsent(s: string, pattern: string, replacement: string)
    requires |pattern| > 0 && !Contains(s, pattern)
    ensures Replace(s, pattern, replacement) == s
    decreases |s|
  {
    if |s| >= |pattern| {
      ReplaceAbsent(s[1..], pattern, replacement);
      assert s == [s[0]] + s[1..];
    }
  }

  /** A character absent from `s` does not occur as a one-character pattern. */
  lemma {:induction false} AbsentCharNotContained(s: string, ch: char)
    requires ch !in s
    ensures !Contains(s, [ch])
    decreases |s|
  {
    if |s| > 0 {
      assert s[..1] == [s[0]];
      AbsentCharNotContained(s[1..], ch);
    }
  }

  /** Stripping text that has no whitespace at either end changes nothing. */
  lemma StripStripped(s: string)
    requires s == [] || (!IsPySpace(s[0]) && !IsPySpace(s[|s| - 1]))
    ensures Strip(s) == s
  {
  }
  /** The text after the last `sep` of `s + [sep] + t`, when `t` has none, is `t`. */
  lemma {:induction false} AfterLastSplit(s: string, sep: char, t: string)
    requires sep !in t
    ensures AfterLast(s + [sep] + t, sep) == t
    decreases |t|
  {
    if t != [] {
      var u := s + [sep] + t;
      assert u[..|u| - 1] == s + [sep] + t[..|t| - 1];
      AfterLastSplit(s, sep, t[..|t| - 1]);
      assert t == t[..|t| - 1] + [t[|t| - 1]];
    }
  }

  /** The text before the first `sep` of `s + [sep] + t`, when `s` has none, is `s`. */
  lemma {:induction false} BeforeFirstSplit(s: string, sep: char, t: string)
    requires sep !in s
    ensures BeforeFirst(s + [sep] + t, sep) == s
    decreases |s|
  {
    if s != [] {
      assert (s + [sep] + t)[1..] == s[1..] + [sep] + t;
      BeforeFirstSplit(s[1..], sep, t);
      assert s == [s[0]] + s[1..];
    }
  }

  /** Counting a character is additive over concatenation. */
  lemma {:induction false} CountCharConcat(a: string, b: string, ch: char)
    ensures CountChar(a + b, ch) == CountChar(a, ch) + CountChar(b, ch)
    decreases |a|
  {
    if a != [] {
      assert (a + b)[1..] == a[1..] + b;
      CountCharConcat(a[1..], b, ch);
    } else {
      assert a + b == b;
    }
  }

  /** Text that cannot start the pattern is copied through by Replace. */
  lemma {:induction false} ReplaceSkipsClean(u: string, rest: string, pattern: string, replacement: string)
    requires |pattern| > 0 && pattern[0] !in u
    ensures Replace(u + rest, pattern, replacement) == u + Replace(rest, pattern, replacement)
    decreases |u|
  {
    if u != [] {
      var s := u + rest;
      assert s[1..] == u[1..] + rest;
      ReplaceSkipsClean(u[1..], rest, pattern, replacement);
      assert u == [u[0]] + u[1..];
      if |s| < |pattern| {
        assert Replace(rest, pattern, replacement) == rest;
      } else {
        assert s[..|pattern|][0] == u[0];
        assert Replace(s, pattern, replacement) == [s[0]] + Replace(s[1..], pattern, replacement);
        assert [u[0]] + (u[1..] + Replace(rest, pattern, replacement)) == u + Replace(rest, pattern, replacement);
      }
    } else {
      assert u + rest == rest;
    }
  }
}
