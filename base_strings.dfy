/**
 The ASCII string helpers of Chromium's base library that the DNS-over-HTTPS
 group configuration uses: splitting on whitespace (SplitString with
 TRIM_WHITESPACE and SPLIT_WANT_NONEMPTY), joining (JoinString) and trimming
 trailing whitespace (TrimWhitespaceASCII with TRIM_TRAILING).
 */
module BaseStrings {

  /** A member of kWhitespaceASCII: tab, line feed, vertical tab, form feed, carriage return, space. */
  predicate IsAsciiWhitespace(ch: char) {
    ch == ' ' || '\t' <= ch <= '\r'
  }

  /** No character of `s` is ASCII whitespace. */
  predicate NoWhitespace(s: string) {
    forall i :: 0 <= i < |s| ==> !IsAsciiWhitespace(s[i])
  }

  /** Every character of `s` is ASCII whitespace. */
  predicate AllWhitespace(s: string) {
    forall i :: 0 <= i < |s| ==> IsAsciiWhitespace(s[i])
  }

  /** A non-empty, whitespace-free piece of text. */
  predicate IsToken(t: string) {
    |t| > 0 && NoWhitespace(t)
  }

  /** The concatenation of all the pieces. */
  function Concat(ts: seq<string>): string {
    if ts == [] then [] else ts[0] + Concat(ts[1..])
  }

  /** The text with every whitespace character deleted. */
  function RemoveWhitespace(s: string): (r: string)
    ensures NoWhitespace(r)
  {
    if s == [] then []
    else if IsAsciiWhitespace(s[0]) then RemoveWhitespace(s[1..])
    else [s[0]] + RemoveWhitespace(s[1..])
  }

  /**
   Splits `s`, given that the token being built so far is `cur`: a whitespace
   character ends the current token (if any), any other character extends it.
   */
  function SplitFrom(s: string, cur: string): (r: seq<string>)
    requires NoWhitespace(cur)
    ensures forall i :: 0 <= i < |r| ==> IsToken(r[i])
    ensures Concat(r) == cur + RemoveWhitespace(s)
    decreases |s|
  {
    if s == [] then
      (if cur == [] then [] else [cur])
    else if IsAsciiWhitespace(s[0]) then
      var rest := SplitFrom(s[1..], []);
      assert RemoveWhitespace(s) == RemoveWhitespace(s[1..]);
      if cur == [] then rest
      else
        var r := [cur] + rest;
        assert r[0] == cur && r[1..] == rest;
        assert IsToken(cur);
        r
    else
      var rest := SplitFrom(s[1..], cur + [s[0]]);
      assert cur + [s[0]] + RemoveWhitespace(s[1..]) == cur + RemoveWhitespace(s);
      rest
  }

  /**
   SplitString(s, kWhitespaceASCII, TRIM_WHITESPACE, SPLIT_WANT_NONEMPTY):
   the maximal runs of non-whitespace characters, in order. Every piece is a
   token, and together they hold exactly the non-whitespace text of `s`.
   */
  function SplitOnWhitespace(s: string): (r: seq<string>)
    ensures forall i :: 0 <= i < |r| ==> IsToken(r[i])
    ensures Concat(r) == RemoveWhitespace(s)
  {
    SplitFrom(s, [])
  }

  /** JoinString(parts, sep): the parts with one `sep` between neighbours and none at the ends. */
  function Join(parts: seq<string>, sep: string): string {
    if |parts| == 0 then []
    else if |parts| == 1 then parts[0]
    else parts[0] + sep + Join(parts[1..], sep)
  }

  /** TrimWhitespaceASCII(s, TRIM_TRAILING): the longest prefix of `s` that does not end in whitespace. */
  function TrimTrailingWhitespace(s: string): (r: string)
    ensures r <= s
    ensures r == [] || !IsAsciiWhitespace(r[|r| - 1])
    ensures AllWhitespace(s[|r|..])
  {
    if s != [] && IsAsciiWhitespace(s[|s| - 1]) then
      var r := TrimTrailingWhitespace(s[..|s| - 1]);
      assert s[|r|..] == s[..|s| - 1][|r|..] + [s[|s| - 1]];
      r
    else s
  }

  /** Whitespace-free text extends the current token. */
  lemma {:induction false} SplitFromWord(t: string, rest: string, cur: string)
    requires NoWhitespace(cur) && NoWhitespace(t)
    ensures SplitFrom(t + rest, cur) == SplitFrom(rest, cur + t)
    decreases |t|
  {
    if t == [] {
      assert t + rest == rest && cur + t == cur;
    } else {
      assert (t + rest)[0] == t[0] && !IsAsciiWhitespace(t[0]);
      assert (t + rest)[1..] == t[1..] + rest;
      SplitFromWord(t[1..], rest, cur + [t[0]]);
      assert cur + [t[0]] + t[1..] == cur + t;
    }
  }

  /** A non-empty run of whitespace ends the current token and yields no empty piece. */
  lemma {:induction false} SplitFromGap(w: string, rest: string, cur: string)
    requires NoWhitespace(cur) && |w| > 0 && AllWhitespace(w)
    ensures SplitFrom(w + rest, cur) == (if cur == [] then [] else [cur]) + SplitFrom(rest, [])
    decreases |w|
  {
    assert (w + rest)[0] == w[0];
    assert (w + rest)[1..] == w[1..] + rest;
    if |w| > 1 {
      SplitFromGap(w[1..], rest, []);
    }
  }

  /** Trailing whitespace yields no empty piece. */
  lemma {:induction false} SplitFromTrailing(s: string, w: string, cur: string)
    requires NoWhitespace(cur) && AllWhitespace(w)
    ensures SplitFrom(s + w, cur) == SplitFrom(s, cur)
    decreases |s|
  {
    if s == [] {
      assert s + w == w;
      if w != [] {
        SplitFromGap(w, [], cur);
        assert w + [] == w;
      }
    } else {
      assert (s + w)[0] == s[0];
      assert (s + w)[1..] == s[1..] + w;
      if IsAsciiWhitespace(s[0]) {
        SplitFromTrailing(s[1..], w, []);
      } else {
        SplitFromTrailing(s[1..], w, cur + [s[0]]);
      }
    }
  }

  /** Splitting undoes joining: tokens joined by any non-empty whitespace separator split back into themselves. */
  lemma {:induction false} SplitJoin(ts: seq<string>, sep: string)
    requires forall i :: 0 <= i < |ts| ==> IsToken(ts[i])
    requires |sep| > 0 && AllWhitespace(sep)
    ensures SplitOnWhitespace(Join(ts, sep)) == ts
    decreases |ts|
  {
    if |ts| == 1 {
      SplitFromWord(ts[0], [], []);
      assert ts[0] + [] == ts[0];
      assert [] + ts[0] == ts[0];
    } else if |ts| > 1 {
      var tail := Join(ts[1..], sep);
      assert Join(ts, sep) == ts[0] + (sep + tail);
      SplitFromWord(ts[0], sep + tail, []);
      assert [] + ts[0] == ts[0];
      SplitFromGap(sep, tail, ts[0]);
      SplitJoin(ts[1..], sep);
      assert ts == [ts[0]] + ts[1..];
    }
  }

  /**
   Leading, trailing and repeated whitespace never produce empty pieces: padding
   a join of tokens on either side with whitespace splits back into the same tokens.
   */
  lemma {:induction false} SplitIgnoresPadding(ts: seq<string>, sep: string, lead: string, trail: string)
    requires forall i :: 0 <= i < |ts| ==> IsToken(ts[i])
    requires |sep| > 0 && AllWhitespace(sep)
    requires AllWhitespace(lead) && AllWhitespace(trail)
    ensures SplitOnWhitespace(lead + Join(ts, sep) + trail) == ts
  {
    var body := Join(ts, sep);
    SplitJoin(ts, sep);
    SplitFromTrailing(body, trail, []);
    assert SplitFrom(body + trail, []) == ts;
    if lead != [] {
      assert lead + body + trail == lead + (body + trail);
      SplitFromGap(lead, body + trail, []);
      assert SplitFrom(lead + body + trail, []) == SplitFrom(body + trail, []);
    } else {
      assert lead + body + trail == body + trail;
    }
  }

  /** The first piece split off after a non-empty current token starts with that token's first character. */
  lemma {:induction false} SplitFromHead(s: string, cur: string)
    requires NoWhitespace(cur) && cur != []
    ensures SplitFrom(s, cur) != [] && SplitFrom(s, cur)[0][0] == cur[0]
    decreases |s|
  {
    if s != [] && !IsAsciiWhitespace(s[0]) {
      SplitFromHead(s[1..], cur + [s[0]]);
    }
  }

  /** Splitting text with no non-whitespace character yields no pieces. */
  lemma {:induction false} SplitBlank(s: string, cur: string)
    requires AllWhitespace(s) && cur == []
    ensures SplitFrom(s, cur) == []
    decreases |s|
  {
    if s != [] {
      SplitBlank(s[1..], []);
    }
  }

  /** A join begins with its first part. */
  lemma {:induction false} JoinStartsWithFirst(parts: seq<string>, sep: string)
    requires |parts| > 0
    ensures parts[0] <= Join(parts, sep)
  {
    if |parts| > 1 {
      assert Join(parts, sep) == parts[0] + (sep + Join(parts[1..], sep));
    }
  }

  /** A join ends with its last part. */
  lemma {:induction false} JoinEndsWithLast(parts: seq<string>, sep: string)
    requires |parts| > 0
    ensures var j := Join(parts, sep); var l := parts[|parts| - 1];
      |l| <= |j| && j[|j| - |l|..] == l
    decreases |parts|
  {
    if |parts| > 1 {
      JoinEndsWithLast(parts[1..], sep);
      var tail := Join(parts[1..], sep);
      var l := parts[|parts| - 1];
      assert Join(parts, sep) == (parts[0] + sep) + tail;
      assert (parts[0] + sep + tail)[|parts[0] + sep + tail| - |l|..] == tail[|tail| - |l|..];
    }
  }
}
