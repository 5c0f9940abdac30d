/** The handful of JavaScript string operations the chat client relies on,
    over strings of Dafny characters: `indexOf`, `startsWith`, `trim`,
    `split("\n")`, and the removal of one trailing carriage return. */
module Text {

  /** The characters JavaScript's `String.prototype.trim` removes: the
      ASCII white space, the line terminators, the byte-order mark and the
      Unicode space separators. */
  predicate IsSpace(c: char) {
    c == ' ' || c == '\t' || c == '\n' || c == '\r' || c == '\U{000B}' || c == '\U{000C}'
    || c == '\U{00A0}' || c == '\U{1680}' || ('\U{2000}' <= c <= '\U{200A}')
    || c == '\U{2028}' || c == '\U{2029}' || c == '\U{202F}' || c == '\U{205F}'
    || c == '\U{3000}' || c == '\U{FEFF}'
  }

  /** `s.indexOf(c)`: the position of the first `c` in `s`, or -1. */
  function IndexOf(s: string, c: char): (r: int)
    ensures r == -1 <==> c !in s
    ensures r != -1 ==> 0 <= r < |s| && s[r] == c && forall k :: 0 <= k < r ==> s[k] != c
  {
    if s == [] then -1
    else if s[0] == c then 0
    else
      var k := IndexOf(s[1..], c);
      assert s[1..][..if k < 0 then 0 else k] == s[1..if k < 0 then 1 else k + 1];
      if k < 0 then -1 else k + 1
  }

  /** The first occurrence found in `s` is also the first in `s + t`. */
  lemma IndexOfAppend(s: string, t: string, c: char)
    requires c in s
    ensures IndexOf(s + t, c) == IndexOf(s, c)
  {
    var i := IndexOf(s, c);
    assert (s + t)[i] == c;
    assert (s + t)[..i] == s[..i];
  }

  /** A line followed by a newline: the line ends at the first newline. */
  lemma IndexOfLine(line: string, rest: string)
    requires '\n' !in line
    ensures IndexOf(line + "\n" + rest, '\n') == |line|
  {
    var s := line + "\n" + rest;
    assert s[|line|] == '\n';
    assert s[..|line|] == line;
  }

  predicate StartsWith(s: string, prefix: string) {
    |prefix| <= |s| && s[..|prefix|] == prefix
  }

  /** `if (line.endsWith("\r")) line = line.slice(0, -1)` */
  function StripCR(line: string): string {
    if |line| > 0 && line[|line| - 1] == '\r' then line[..|line| - 1] else line
  }

  function TrimStart(s: string): string {
    if s != [] && IsSpace(s[0]) then TrimStart(s[1..]) else s
  }

  function TrimEnd(s: string): string {
    if s != [] && IsSpace(s[|s| - 1]) then TrimEnd(s[..|s| - 1]) else s
  }

  predicate AllSpace(s: string) {
    forall k :: 0 <= k < |s| ==> IsSpace(s[k])
  }

  /** `s.trim()`: `s` without its leading and trailing white space. */
  function Trim(s: string): string {
    TrimEnd(TrimStart(s))
  }

  lemma {:induction false} TrimStartAppend(s: string, t: string)
    ensures TrimStart(s + t) == if TrimStart(s) == [] then TrimStart(t) else TrimStart(s) + t
  {
    if s != [] {
      assert (s + t)[1..] == s[1..] + t;
      if IsSpace(s[0]) {
        TrimStartAppend(s[1..], t);
      }
    } else {
      assert s + t == t;
    }
  }

  /** One more trailing space character never changes what `trim` returns. */
  lemma TrimTrailingSpace(s: string, c: char)
    requires IsSpace(c)
    ensures Trim(s + [c]) == Trim(s)
  {
    TrimStartAppend(s, [c]);
    var u := TrimStart(s);
    if u != [] {
      assert (u + [c])[..|u|] == u;
    }
  }

  /** A line with a trailing carriage return trims to the same text as
      the line without it. */
  lemma TrimStripCR(line: string)
    ensures Trim(StripCR(line)) == Trim(line)
  {
    if |line| > 0 && line[|line| - 1] == '\r' {
      var x := line[..|line| - 1];
      assert line == x + ['\r'];
      TrimTrailingSpace(x, '\r');
    }
  }

  /** `s.split("\n")`: the pieces of `s` between newlines, in order; a
      string with no newline is one piece, and a trailing newline yields a
      last, empty piece. */
  function Split(s: string): (pieces: seq<string>)
    ensures |pieces| >= 1
    ensures '\n' !in s ==> pieces == [s]
    ensures forall k :: 0 <= k < |pieces| ==> '\n' !in pieces[k]
    decreases |s|
  {
    var i := IndexOf(s, '\n');
    if i < 0 then [s] else [s[..i]] + Split(s[i + 1..])
  }

  /** Splitting a line followed by a newline and more text. */
  lemma SplitLine(line: string, rest: string)
    requires '\n' !in line
    ensures Split(line + "\n" + rest) == [line] + Split(rest)
  {
    IndexOfLine(line, rest);
    var s := line + "\n" + rest;
    assert s[..|line|] == line;
    assert s[|line| + 1..] == rest;
  }

  /** `trimStart` removes a prefix of white space and stops at the first
      other character. */
  lemma {:induction false} TrimStartSpec(s: string)
    ensures var r := TrimStart(s);
      |r| <= |s| && r == s[|s| - |r|..] && (r == [] || !IsSpace(r[0]))
      && AllSpace(s[..|s| - |r|])
    decreases |s|
  {
    if s != [] && IsSpace(s[0]) {
      TrimStartSpec(s[1..]);
      var r := TrimStart(s);
      assert s[1..][|s| - 1 - |r|..] == s[|s| - |r|..];
      var p, q := s[..|s| - |r|], s[1..][..|s| - 1 - |r|];
      forall k | 0 <= k < |p| ensures IsSpace(p[k]) {
        if k > 0 { assert p[k] == q[k - 1]; }
      }
    }
  }

  /** `trimEnd` removes a suffix of white space and stops at the last
      other character. */
  lemma {:induction false} TrimEndSpec(s: string)
    ensures var r := TrimEnd(s);
      |r| <= |s| && r == s[..|r|] && (r == [] || !IsSpace(r[|r| - 1]))
      && AllSpace(s[|r|..])
    decreases |s|
  {
    if s != [] && IsSpace(s[|s| - 1]) {
      TrimEndSpec(s[..|s| - 1]);
      var r := TrimEnd(s);
      assert s[..|s| - 1][..|r|] == s[..|r|];
      var p, q := s[|r|..], s[..|s| - 1][|r|..];
      forall k | 0 <= k < |p| ensures IsSpace(p[k]) {
        if k < |p| - 1 { assert p[k] == q[k]; }
      }
    }
  }

  /** `s.trim() === ""` exactly when `s` is all white space. */
  lemma TrimBlank(s: string)
    ensures Trim(s) == [] <==> AllSpace(s)
  {
    TrimStartSpec(s);
    var u := TrimStart(s);
    if u != [] {
      TrimEndSpec(u);
      assert u[0] == s[|s| - |u|];
      if TrimEnd(u) == [] {
        TrimEndNotBlank(u);
      }
    } else {
      assert s[..|s|] == s;
    }
  }

  lemma {:induction false} TrimEndNotBlank(u: string)
    requires u != [] && !IsSpace(u[0])
    ensures TrimEnd(u) != []
    decreases |u|
  {
    if IsSpace(u[|u| - 1]) {
      TrimEndNotBlank(u[..|u| - 1]);
    }
  }

  lemma AllSpaceDrop(s: string, j: int)
    requires AllSpace(s) && 0 <= j <= |s|
    ensures AllSpace(s[j..]) && AllSpace(s[..j])
  {
    forall k | 0 <= k < |s| - j ensures IsSpace(s[j..][k]) {
      assert s[j..][k] == s[j + k];
    }
  }

  // ---------------------------------------------------------------------
  // Sequence identities, kept apart so that callers need not rediscover
  // them by extensionality

  lemma AppendAssoc<T>(a: seq<T>, b: seq<T>, c: seq<T>)
    ensures (a + b) + c == a + (b + c)
  {
  }

  /** Cutting `s` at a newline, with more text `t` after it. */
  lemma CutAtNewline(s: string, i: int, t: string)
    requires 0 <= i < |s| && s[i] == '\n'
    ensures s + t == s[..i] + "\n" + (s[i + 1..] + t)
    ensures (s + t)[..i] == s[..i] && (s + t)[i + 1..] == s[i + 1..] + t
    ensures s[i..] == "\n" + s[i + 1..]
  {
    assert s == s[..i] + "\n" + s[i + 1..];
  }

  lemma TakeSnoc<T>(xs: seq<T>, k: int)
    requires 0 <= k < |xs|
    ensures xs[..k + 1] == xs[..k] + [xs[k]]
  {
  }
}
