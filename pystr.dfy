/**
 * The handful of Python `str` operations the sharing scripts rely on:
 * `strip`, `startswith`, substring search, `replace`, `split`, `splitlines`
 * and `join`. Strings are sequences of characters.
 */
module PyStr {

  /** Python's `str.isspace` for one character. */
  predicate IsSpace(c: char) {
    || c == ' ' || c == '\t' || c == '\n' || c == '\r'
    || c == '\U{000B}' || c == '\U{000C}'
    || ('\U{001C}' <= c <= '\U{001F}')
    || c == '\U{0085}' || c == '\U{00A0}' || c == '\U{1680}'
    || ('\U{2000}' <= c <= '\U{200A}')
    || c == '\U{2028}' || c == '\U{2029}' || c == '\U{202F}' || c == '\U{205F}' || c == '\U{3000}'
  }

  /** `s.lstrip()`: drops the leading whitespace. */
  function LStrip(s: string): string {
    if s != [] && IsSpace(s[0]) then LStrip(s[1..]) else s
  }

  /** `s.rstrip()`: drops the trailing whitespace. */
  function RStrip(s: string): string {
    if s != [] && IsSpace(s[|s| - 1]) then RStrip(s[..|s| - 1]) else s
  }

  /** `s.strip()`: drops whitespace at both ends. */
  function Strip(s: string): string {
    RStrip(LStrip(s))
  }

  /** `r` is the slice of `s` at `i` and everything of `s` outside it is whitespace. */
  predicate StrippedAt(s: string, r: string, i: int) {
    && 0 <= i <= |s| - |r| && r == s[i..i + |r|]
    && (forall k :: 0 <= k < i ==> IsSpace(s[k]))
    && (forall k :: i + |r| <= k < |s| ==> IsSpace(s[k]))
  }

  /** `lstrip` removes exactly the leading whitespace. */
  lemma {:induction false} LStripSpec(s: string)
    ensures StrippedAt(s, LStrip(s), |s| - |LStrip(s)|)
    ensures LStrip(s) == [] || !IsSpace(LStrip(s)[0])
    decreases |s|
  {
    if s != [] && IsSpace(s[0]) {
      LStripSpec(s[1..]);
    }
  }

  /** `rstrip` removes exactly the trailing whitespace. */
  lemma {:induction false} RStripSpec(s: string)
    ensures StrippedAt(s, RStrip(s), 0)
    ensures RStrip(s) == [] || !IsSpace(RStrip(s)[|RStrip(s)| - 1])
    decreases |s|
  {
    if s != [] && IsSpace(s[|s| - 1]) {
      RStripSpec(s[..|s| - 1]);
      assert s[..|s| - 1][..|RStrip(s)|] == s[..|RStrip(s)|];
    }
  }

  /**
   * `strip` leaves the slice of `s` obtained by removing whitespace at both
   * ends: it neither starts nor ends with whitespace.
   */
  lemma StripSpec(s: string)
    ensures exists i :: StrippedAt(s, Strip(s), i)
    ensures Strip(s) == [] || (!IsSpace(Strip(s)[0]) && !IsSpace(Strip(s)[|Strip(s)| - 1]))
  {
    var l := LStrip(s);
    var r := RStrip(l);
    LStripSpec(s);
    RStripSpec(l);
    var i := |s| - |l|;
    assert l == s[i..];
    assert r == l[..|r|];
    assert r == s[i..i + |r|];
    forall k | 0 <= k < i ensures IsSpace(s[k]) {
    }
    forall k | i + |r| <= k < |s| ensures IsSpace(s[k]) {
      assert s[k] == l[k - i];
    }
    assert StrippedAt(s, r, i);
    assert Strip(s) == r;
  }

  /** A line is blank for Python (`not line.strip()`) exactly when it is all whitespace. */
  lemma StripEmpty(s: string)
    ensures Strip(s) == [] <==> forall k :: 0 <= k < |s| ==> IsSpace(s[k])
  {
    StripSpec(s);
    var r := Strip(s);
    if r != [] {
      var i :| StrippedAt(s, r, i);
      assert r[0] == s[i] && !IsSpace(s[i]);
    }
  }

  /** `s.startswith(p)`. */
  predicate StartsWith(s: string, p: string) {
    |p| <= |s| && s[..|p|] == p
  }

  /** `s.endswith(p)`. */
  predicate EndsWith(s: string, p: string) {
    |p| <= |s| && s[|s| - |p|..] == p
  }

  /** `p` occurs in `s` starting at index `i`. */
  predicate OccursAt(s: string, p: string, i: int) {
    0 <= i <= |s| - |p| && s[i..i + |p|] == p
  }

  /** `p in s`, searched from the left. */
  predicate Contains(s: string, p: string)
    decreases |s|
  {
    StartsWith(s, p) || (s != [] && Contains(s[1..], p))
  }

  /** Substring search agrees with "`p` occurs at some index of `s`". */
  lemma {:induction false} ContainsAt(s: string, p: string)
    ensures Contains(s, p) <==> exists i :: OccursAt(s, p, i)
    decreases |s|
  {
    if StartsWith(s, p) {
      assert OccursAt(s, p, 0);
    } else if s != [] {
      ContainsAt(s[1..], p);
      if Contains(s[1..], p) {
        var i :| OccursAt(s[1..], p, i);
        assert s[1..][i..i + |p|] == s[i + 1..i + 1 + |p|];
        assert OccursAt(s, p, i + 1);
      }
      if i :| OccursAt(s, p, i) {
        assert i != 0;
        assert s[1..][i - 1..i - 1 + |p|] == s[i..i + |p|];
        assert OccursAt(s[1..], p, i - 1);
      }
    }
  }

  /** `s.find(c)`, with "not found" reported as `|s|`. */
  function IndexOf(s: string, c: char): (k: nat)
    ensures k <= |s| && (k < |s| ==> s[k] == c) && c !in s[..k]
  {
    if s == [] then 0
    else if s[0] == c then 0
    else 1 + IndexOf(s[1..], c)
  }

  /** `sep.join(parts)`. */
  function Join(sep: string, parts: seq<string>): string {
    if parts == [] then ""
    else if |parts| == 1 then parts[0]
    else parts[0] + sep + Join(sep, parts[1..])
  }

  /** Joining one more part adds one separator and the part at the end. */
  lemma {:induction false} JoinAppend(sep: string, parts: seq<string>, x: string)
    ensures Join(sep, parts + [x]) == if parts == [] then x else Join(sep, parts) + sep + x
  {
    if |parts| > 1 {
      assert (parts + [x])[1..] == parts[1..] + [x];
      JoinAppend(sep, parts[1..], x);
    } else if |parts| == 1 {
      assert (parts + [x])[1..] == [x];
    }
  }

  /** `s.split(sep)` for a one-character separator: there is always at least one part. */
  function Split(s: string, sep: char): (r: seq<string>)
    ensures |r| >= 1
    ensures forall i :: 0 <= i < |r| ==> sep !in r[i]
    decreases |s|
  {
    var k := IndexOf(s, sep);
    if k == |s| then [s] else [s[..k]] + Split(s[k + 1..], sep)
  }

  /** Splitting and joining back with the same separator gives the text back. */
  lemma {:induction false} JoinSplit(s: string, sep: char)
    ensures Join([sep], Split(s, sep)) == s
    decreases |s|
  {
    var k := IndexOf(s, sep);
    if k < |s| {
      var rest := Split(s[k + 1..], sep);
      JoinSplit(s[k + 1..], sep);
      assert ([s[..k]] + rest)[1..] == rest;
      assert Join([sep], [s[..k]] + rest) == s[..k] + [sep] + Join([sep], rest);
      assert s == s[..k] + [sep] + s[k + 1..];
    }
  }

  /**
   * `s.splitlines()` with "\n" as the only line boundary: the trailing
   * newline does not open an empty last line, and "" has no lines.
   */
  function SplitLines(s: string): (lines: seq<string>)
    ensures forall i :: 0 <= i < |lines| ==> '\n' !in lines[i]
  {
    if s == [] then []
    else if s[|s| - 1] == '\n' then Split(s[..|s| - 1], '\n')
    else Split(s, '\n')
  }

  /** Joining the lines with "\n" gives the text back, less one trailing newline. */
  lemma SplitLinesJoin(s: string)
    ensures Join("\n", SplitLines(s)) == if s != [] && s[|s| - 1] == '\n' then s[..|s| - 1] else s
  {
    if s != [] {
      if s[|s| - 1] == '\n' {
        JoinSplit(s[..|s| - 1], '\n');
      } else {
        JoinSplit(s, '\n');
      }
    }
  }

  /**
   * `s.replace(pat, rep)`: every occurrence of `pat` found scanning from the
   * left, without overlaps, becomes `rep`.
   */
  function Replace(s: string, pat: string, rep: string): string
    requires pat != []
    decreases |s|
  {
    if |s| < |pat| then s
    else if StartsWith(s, pat) then rep + Replace(s[|pat|..], pat, rep)
    else [s[0]] + Replace(s[1..], pat, rep)
  }

  /** Text that does not contain the pattern is left as it is. */
  lemma {:induction false} ReplaceAbsent(s: string, pat: string, rep: string)
    requires pat != []
    requires !Contains(s, pat)
    ensures Replace(s, pat, rep) == s
    decreases |s|
  {
    if |s| >= |pat| {
      ReplaceAbsent(s[1..], pat, rep);
    }
  }

  /**
   * A character that does not occur in the pattern is never part of an
   * occurrence, so replacement works on each side of it separately.
   */
  lemma {:induction false} ReplaceAround(a: string, c: char, b: string, pat: string, rep: string)
    requires pat != [] && c !in pat
    ensures Replace(a + [c] + b, pat, rep) == Replace(a, pat, rep) + [c] + Replace(b, pat, rep)
    decreases |a|
  {
    if |a| < |pat| {
      ReplaceAroundShort(a, c, b, pat, rep);
    } else if StartsWith(a, pat) {
      ReplaceAround(a[|pat|..], c, b, pat, rep);
      ReplaceAroundMatch(a, c, b, pat, rep);
    } else {
      ReplaceAround(a[1..], c, b, pat, rep);
      ReplaceAroundSkip(a, c, b, pat, rep);
    }
  }

  /** Appending after `a` leaves its first character and its prefixes alone. */
  lemma SkipPrefix(a: string, c: char, b: string, pat: string)
    requires |a| >= |pat| && !StartsWith(a, pat)
    ensures |a + [c] + b| >= |pat| && !StartsWith(a + [c] + b, pat)
    ensures (a + [c] + b)[0] == a[0] && (a + [c] + b)[1..] == a[1..] + [c] + b
  {
    assert (a + [c] + b)[..|pat|] == a[..|pat|];
  }

  /** Text of pattern length or more that does not start with the pattern keeps its first character. */
  lemma ReplaceSkipOne(s: string, pat: string, rep: string)
    requires pat != [] && |s| >= |pat| && !StartsWith(s, pat)
    ensures Replace(s, pat, rep) == [s[0]] + Replace(s[1..], pat, rep)
  {
  }

  lemma AppendAssoc<T>(a: seq<T>, b: seq<T>, c: seq<T>)
    ensures a + b + c == a + (b + c)
  {
  }

  /** The step of `ReplaceAround` when `a` starts with the pattern. */
  lemma ReplaceAroundMatch(a: string, c: char, b: string, pat: string, rep: string)
    requires pat != [] && |a| >= |pat| && StartsWith(a, pat)
    requires Replace(a[|pat|..] + [c] + b, pat, rep) == Replace(a[|pat|..], pat, rep) + [c] + Replace(b, pat, rep)
    ensures Replace(a + [c] + b, pat, rep) == Replace(a, pat, rep) + [c] + Replace(b, pat, rep)
  {
    var s, a' := a + [c] + b, a[|pat|..];
    assert s[..|pat|] == a[..|pat|] && s[|pat|..] == a' + [c] + b;
    calc {
      Replace(s, pat, rep);
      rep + Replace(a' + [c] + b, pat, rep);
      rep + (Replace(a', pat, rep) + [c] + Replace(b, pat, rep));
      (rep + Replace(a', pat, rep)) + [c] + Replace(b, pat, rep);
    }
  }

  /** The step of `ReplaceAround` when `a` is long enough but does not start with the pattern. */
  lemma ReplaceAroundSkip(a: string, c: char, b: string, pat: string, rep: string)
    requires pat != [] && |a| >= |pat| && !StartsWith(a, pat)
    requires Replace(a[1..] + [c] + b, pat, rep) == Replace(a[1..], pat, rep) + [c] + Replace(b, pat, rep)
    ensures Replace(a + [c] + b, pat, rep) == Replace(a, pat, rep) + [c] + Replace(b, pat, rep)
  {
    SkipPrefix(a, c, b, pat);
    ReplaceSkipOne(a + [c] + b, pat, rep);
    ReplaceSkipOne(a, pat, rep);
    AppendAssoc([a[0]], Replace(a[1..], pat, rep), [c] + Replace(b, pat, rep));
  }


  /** `ReplaceAround` when `a` is shorter than the pattern: `a` is copied as it is. */
  lemma {:induction false} ReplaceAroundShort(a: string, c: char, b: string, pat: string, rep: string)
    requires pat != [] && c !in pat
    requires |a| < |pat|
    ensures Replace(a + [c] + b, pat, rep) == a + [c] + Replace(b, pat, rep)
    decreases |a|
  {
    var s := a + [c] + b;
    if |s| < |pat| {
      return;
    }
    // the window at the start of `s` holds `c`, so it is not `pat`
    assert s[..|pat|][|a|] == c;
    assert !StartsWith(s, pat);
    if a == [] {
      assert s[1..] == b;
    } else {
      var a' := a[1..];
      assert s[1..] == a' + [c] + b;
      ReplaceAroundShort(a', c, b, pat, rep);
      calc {
        Replace(s, pat, rep);
        [a[0]] + Replace(a' + [c] + b, pat, rep);
        [a[0]] + (a' + [c] + Replace(b, pat, rep));
        ([a[0]] + a') + [c] + Replace(b, pat, rep);
        { assert [a[0]] + a' == a; }
        a + [c] + Replace(b, pat, rep);
      }
    }
  }

  /** Applies `Replace` to every line. */
  function ReplaceEach(lines: seq<string>, pat: string, rep: string): (r: seq<string>)
    requires pat != []
    ensures |r| == |lines|
    ensures forall i :: 0 <= i < |lines| ==> r[i] == Replace(lines[i], pat, rep)
  {
    if lines == [] then [] else [Replace(lines[0], pat, rep)] + ReplaceEach(lines[1..], pat, rep)
  }

  /** Replacing in two runs of lines is replacing in each run. */
  lemma ReplaceEachAppend(a: seq<string>, b: seq<string>, pat: string, rep: string)
    requires pat != []
    ensures ReplaceEach(a + b, pat, rep) == ReplaceEach(a, pat, rep) + ReplaceEach(b, pat, rep)
  {
    var l, r := ReplaceEach(a + b, pat, rep), ReplaceEach(a, pat, rep) + ReplaceEach(b, pat, rep);
    forall i | 0 <= i < |l| ensures l[i] == r[i] {
      if i < |a| {
        assert (a + b)[i] == a[i];
      } else {
        assert (a + b)[i] == b[i - |a|];
      }
    }
  }

  /** Replacing line by line around an inserted line and a blank line. */
  lemma ReplaceAroundBlank(a: seq<string>, code: string, b: seq<string>, pat: string, rep: string)
    requires pat != []
    ensures ReplaceEach(a + [code, ""] + b, pat, rep)
            == ReplaceEach(a, pat, rep) + [Replace(code, pat, rep), ""] + ReplaceEach(b, pat, rep)
  {
    var mid := [code, ""];
    ReplaceEachAppend(a + mid, b, pat, rep);
    ReplaceEachAppend(a, mid, pat, rep);
    assert ReplaceEach(mid, pat, rep) == [Replace(code, pat, rep), ""] by {
      assert Replace("", pat, rep) == "";
    }
  }

  /**
   * A pattern without a newline is replaced line by line: replacing in the
   * "\n"-joined text is joining the lines replaced one by one.
   */
  lemma {:induction false} ReplaceJoin(lines: seq<string>, pat: string, rep: string)
    requires pat != [] && '\n' !in pat
    ensures Replace(Join("\n", lines), pat, rep) == Join("\n", ReplaceEach(lines, pat, rep))
  {
    if |lines| == 0 {
      assert Replace("", pat, rep) == "";
    } else if |lines| > 1 {
      ReplaceJoin(lines[1..], pat, rep);
      ReplaceAround(lines[0], '\n', Join("\n", lines[1..]), pat, rep);
      assert ReplaceEach(lines, pat, rep)[1..] == ReplaceEach(lines[1..], pat, rep);
    }
  }
}
