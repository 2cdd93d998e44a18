/** String primitives the engine relies on: Python's whitespace class,
    `str.strip()` with no argument, `str.startswith` and the `in` operator
    on strings. */
module Strings {

  /** Characters for which Python's `str.isspace()` holds: the ASCII
      whitespace and separator controls and the Unicode space separators. */
  predicate IsSpace(c: char) {
    || c == ' ' || c == '\t' || c == '\n' || c == '\r'
    || c == '\U{000B}' || c == '\U{000C}'
    || ('\U{001C}' <= c <= '\U{001F}')
    || c == '\U{0085}' || c == '\U{00A0}' || c == '\U{1680}'
    || ('\U{2000}' <= c <= '\U{200A}')
    || c == '\U{2028}' || c == '\U{2029}' || c == '\U{202F}'
    || c == '\U{205F}' || c == '\U{3000}'
  }

  predicate AllSpace(s: string) {
    forall i :: 0 <= i < |s| ==> IsSpace(s[i])
  }

  /** Neither end of `s` is a whitespace character. */
  predicate Trimmed(s: string) {
    s == [] || (!IsSpace(s[0]) && !IsSpace(s[|s| - 1]))
  }

  /** `s` with its leading whitespace removed. */
  function TrimStart(s: string): string {
    if s != [] && IsSpace(s[0]) then TrimStart(s[1..]) else s
  }

  /** `s` with its trailing whitespace removed. */
  function TrimEnd(s: string): string {
    if s != [] && IsSpace(s[|s| - 1]) then TrimEnd(s[..|s| - 1]) else s
  }

  /** TrimStart cuts a run of whitespace off the front and stops at the
      first other character. */
  lemma {:induction false} TrimStartCuts(s: string)
    ensures var r := TrimStart(s);
            && |r| <= |s| && r == s[|s| - |r|..]
            && AllSpace(s[..|s| - |r|])
            && (r == [] || !IsSpace(r[0]))
  {
    if s != [] && IsSpace(s[0]) {
      TrimStartCuts(s[1..]);
      var r := TrimStart(s[1..]);
      assert r == s[|s| - |r|..];
      assert s[..|s| - |r|] == [s[0]] + s[1..][..|s| - 1 - |r|];
    }
  }

  /** TrimEnd cuts a run of whitespace off the back and stops at the last
      other character. */
  lemma {:induction false} TrimEndCuts(s: string)
    ensures var r := TrimEnd(s);
            && |r| <= |s| && r == s[..|r|]
            && AllSpace(s[|r|..])
            && (r == [] || !IsSpace(r[|r| - 1]))
  {
    if s != [] && IsSpace(s[|s| - 1]) {
      var init := s[..|s| - 1];
      TrimEndCuts(init);
      var r := TrimEnd(init);
      assert r == s[..|r|];
      assert s[|r|..] == init[|r|..] + [s[|s| - 1]];
    }
  }

  /** Python's `s.strip()`: what is left of `s` after cutting every
      leading and every trailing whitespace character. */
  function Strip(s: string): (r: string)
    ensures Trimmed(r)
    ensures |r| <= |s|
  {
    TrimStartCuts(s);
    var t := TrimStart(s);
    TrimEndCuts(t);
    assert TrimEnd(t) != [] ==> TrimEnd(t)[0] == t[0];
    TrimEnd(t)
  }

  /** Python's `s.startswith(p)`. */
  predicate StartsWith(s: string, p: string) {
    |p| <= |s| && s[..|p|] == p
  }

  /** Python's `p in s` on strings: `p` occurs somewhere in `s`. */
  predicate Contains(s: string, p: string) {
    exists k :: 0 <= k <= |s| - |p| && OccursAt(s, p, k)
  }

  /** `p` occurs in `s` starting at index `k`. */
  predicate OccursAt(s: string, p: string, k: int)
    requires 0 <= k <= |s| - |p|
  {
    s[k..k + |p|] == p
  }

  /** A string with no whitespace at either end is its own strip. */
  lemma StripOfTrimmed(s: string)
    requires Trimmed(s)
    ensures Strip(s) == s
  {
    assert TrimStart(s) == s;
    assert TrimEnd(s) == s;
  }

  /** Stripping twice is stripping once. */
  lemma StripIdempotent(s: string)
    ensures Strip(Strip(s)) == Strip(s)
  {
    StripOfTrimmed(Strip(s));
  }

  /** Trailing-whitespace removal never cuts into a non-space character. */
  lemma TrimEndKeepsNonSpace(s: string, n: nat)
    requires 0 < n <= |s| && !IsSpace(s[n - 1])
    ensures n <= |TrimEnd(s)|
  {
    TrimEndCuts(s);
  }

  /** The strip of a line that starts with a trimmed prefix still starts
      with that prefix: the anchored prefix is never cut away. */
  lemma StripKeepsTrimmedPrefix(line: string, p: string)
    requires Trimmed(p) && StartsWith(line, p)
    ensures StartsWith(Strip(line), p)
  {
    if p != [] {
      assert line[0] == p[0];
      assert TrimStart(line) == line;
      assert line[|p| - 1] == p[|p| - 1];
      TrimEndKeepsNonSpace(line, |p|);
      TrimEndCuts(line);
      var r := TrimEnd(line);
      assert r[..|p|] == line[..|p|];
    }
  }

  /** A prefix is in particular a substring. */
  lemma StartsWithContains(s: string, p: string)
    requires StartsWith(s, p)
    ensures Contains(s, p)
  {
    assert OccursAt(s, p, 0);
  }

  /** Strip cuts only whitespace, at both ends: `s` is `r` between two
      runs of whitespace. */
  lemma StripIsInfix(s: string)
    ensures var r := Strip(s);
            exists i :: 0 <= i <= |s| - |r| && r == s[i..i + |r|]
                        && AllSpace(s[..i]) && AllSpace(s[i + |r|..])
  {
    TrimStartCuts(s);
    var t := TrimStart(s);
    TrimEndCuts(t);
    var r := TrimEnd(t);
    var i := |s| - |t|;
    assert r == s[i..i + |r|];
    assert s[i + |r|..] == t[|r|..];
    assert s[..i] == s[..|s| - |t|];
    assert 0 <= i <= |s| - |r| && r == s[i..i + |r|] && AllSpace(s[..i]) && AllSpace(s[i + |r|..]);
  }

  /** A line strips to nothing exactly when it is blank. */
  lemma StripEmptyIffBlank(s: string)
    ensures Strip(s) == [] <==> AllSpace(s)
  {
    StripIsInfix(s);
    if Strip(s) == [] {
      var i :| 0 <= i <= |s| && AllSpace(s[..i]) && AllSpace(s[i..]);
      assert s == s[..i] + s[i..];
    }
    if AllSpace(s) {
      TrimStartCuts(s);
    }
  }

  /** Helper for `StripUnique`: leading whitespace before `m` is all cut. */
  lemma {:induction false} TrimStartPastSpace(a: string, m: string)
    requires AllSpace(a) && (m == [] || !IsSpace(m[0]))
    ensures TrimStart(a + m) == m
  {
    if a != [] {
      assert (a + m)[1..] == a[1..] + m;
      TrimStartPastSpace(a[1..], m);
    }
  }

  /** Helper for `StripUnique`: trailing whitespace after `m` is all cut. */
  lemma {:induction false} TrimEndPastSpace(m: string, b: string)
    requires AllSpace(b) && (m == [] || !IsSpace(m[|m| - 1]))
    ensures TrimEnd(m + b) == m
  {
    if b != [] {
      assert (m + b)[..|m + b| - 1] == m + b[..|b| - 1];
      TrimEndPastSpace(m, b[..|b| - 1]);
    }
  }

  /** Strip is determined by its result: a trimmed text `m` surrounded by
      whitespace strips to `m`. */
  lemma StripUnique(a: string, m: string, b: string)
    requires AllSpace(a) && AllSpace(b) && Trimmed(m)
    ensures Strip(a + m + b) == m
  {
    if m == [] {
      assert a + m + b == a + b;
      TrimStartPastSpace(a + b, []);
      assert a + b + [] == a + b;
    } else {
      assert a + m + b == a + (m + b);
      TrimStartPastSpace(a, m + b);
      TrimEndPastSpace(m, b);
    }
  }
}
