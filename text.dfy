/** The JavaScript string operations the front end relies on: String.prototype.trim,
    toLowerCase, startsWith and includes, and the regular-expression atom `.`
    (any character except a line terminator), stated on Dafny strings. */
module Text {

  /** ECMAScript WhiteSpace: tab, vertical tab, form feed, space, no-break space,
      the byte order mark and the space separators of category Zs. */
  predicate IsWhiteSpace(c: char) {
    c == '\t' || c == '\U{000B}' || c == '\U{000C}' || c == ' ' || c == '\U{00A0}' ||
    c == '\U{FEFF}' || c == '\U{1680}' || ('\U{2000}' <= c <= '\U{200A}') ||
    c == '\U{202F}' || c == '\U{205F}' || c == '\U{3000}'
  }

  /** ECMAScript LineTerminator: line feed, carriage return, line and paragraph separators. */
  predicate IsLineTerminator(c: char) {
    c == '\n' || c == '\r' || c == '\U{2028}' || c == '\U{2029}'
  }

  /** The characters String.prototype.trim removes from both ends. */
  predicate IsTrimmable(c: char) {
    IsWhiteSpace(c) || IsLineTerminator(c)
  }

  /** Every character of `s` is one that trim removes. */
  ghost predicate AllTrimmable(s: string) {
    forall i :: 0 <= i < |s| ==> IsTrimmable(s[i])
  }

  /** The suffix of `s` left once its leading trimmable characters are dropped. */
  function TrimStart(s: string): (r: string)
    ensures |r| <= |s| && r == s[|s| - |r|..]
    ensures AllTrimmable(s[..|s| - |r|])
    ensures r == [] || !IsTrimmable(r[0])
  {
    if s != [] && IsTrimmable(s[0]) then
      var r := TrimStart(s[1..]);
      assert s[1..][..|s[1..]| - |r|] == s[1..|s| - |r|];
      r
    else s
  }

  /** The prefix of `s` left once its trailing trimmable characters are dropped. */
  function TrimEnd(s: string): (r: string)
    ensures |r| <= |s| && r == s[..|r|]
    ensures AllTrimmable(s[|r|..])
    ensures r == [] || !IsTrimmable(r[|r| - 1])
  {
    if s != [] && IsTrimmable(s[|s| - 1]) then
      var r := TrimEnd(s[..|s| - 1]);
      assert s[..|s| - 1][|r|..] == s[|r|..|s| - 1];
      r
    else s
  }

  /** String.prototype.trim: the infix of `s` between its leading and its trailing
      run of trimmable characters. */
  function Trim(s: string): (r: string)
    ensures |r| <= |TrimStart(s)| && r == TrimStart(s)[..|r|]
    ensures AllTrimmable(TrimStart(s)[|r|..])
    ensures r == [] || (!IsTrimmable(r[0]) && !IsTrimmable(r[|r| - 1]))
  {
    var t := TrimStart(s);
    var r := TrimEnd(t);
    assert r != [] ==> r[0] == t[0];
    r
  }

  /** JavaScript's `!s.trim()`: nothing is left once the string is trimmed. */
  predicate IsBlank(s: string) {
    Trim(s) == []
  }

  /** A string is blank exactly when every one of its characters is trimmable. */
  lemma BlankIffAllTrimmable(s: string)
    ensures IsBlank(s) <==> AllTrimmable(s)
  {
    if AllTrimmable(s) {
      BlankStartOfAllTrimmable(s);
    }
    if IsBlank(s) {
      var t := TrimStart(s);
      assert t[0..] == t;
      assert s == s[..|s| - |t|] + t;
    }
  }

  /** Trimming twice is trimming once. */
  lemma TrimIdempotent(s: string)
    ensures Trim(Trim(s)) == Trim(s)
  {
    var r := Trim(s);
    if r != [] {
      assert TrimStart(r) == r;
      assert TrimEnd(r) == r;
    }
  }

  /** Trailing trimmable characters do not change what trim returns. */
  lemma {:induction false} TrimIgnoresTrailing(s: string, tail: string)
    requires AllTrimmable(tail)
    ensures Trim(s + tail) == Trim(s)
  {
    TrimStartOfTrailing(s, tail);
    var t := TrimStart(s);
    if t == [] {
      assert TrimStart(s + tail) == [];
    } else {
      assert TrimStart(s + tail) == t + tail;
      TrimEndDropsTail(t, tail);
    }
  }

  lemma {:induction false} TrimStartOfTrailing(s: string, tail: string)
    requires AllTrimmable(tail)
    ensures TrimStart(s) == [] ==> TrimStart(s + tail) == []
    ensures TrimStart(s) != [] ==> TrimStart(s + tail) == TrimStart(s) + tail
    decreases |s| + |tail|
  {
    if s == [] {
      assert s + tail == tail;
      BlankStartOfAllTrimmable(tail);
    } else if IsTrimmable(s[0]) {
      assert (s + tail)[1..] == s[1..] + tail;
      TrimStartOfTrailing(s[1..], tail);
    } else {
      assert (s + tail)[0] == s[0];
    }
  }

  lemma {:induction false} BlankStartOfAllTrimmable(s: string)
    requires AllTrimmable(s)
    ensures TrimStart(s) == []
    decreases |s|
  {
    if s != [] {
      BlankStartOfAllTrimmable(s[1..]);
    }
  }

  lemma {:induction false} TrimEndDropsTail(t: string, tail: string)
    requires AllTrimmable(tail)
    ensures TrimEnd(t + tail) == TrimEnd(t)
    decreases |tail|
  {
    if tail == [] {
      assert t + tail == t;
    } else {
      var u := t + tail;
      assert u[|u| - 1] == tail[|tail| - 1];
      assert u[..|u| - 1] == t + tail[..|tail| - 1];
      TrimEndDropsTail(t, tail[..|tail| - 1]);
    }
  }

  /** toLowerCase on one character (ASCII letters only). */
  function LowerChar(c: char): (d: char)
    ensures !('A' <= d <= 'Z')
    ensures !('A' <= c <= 'Z') ==> d == c
    ensures 'A' <= c <= 'Z' ==> d as int - c as int == 'a' as int - 'A' as int
  {
    if 'A' <= c <= 'Z' then (c as int - 'A' as int + 'a' as int) as char else c
  }

  /** String.prototype.toLowerCase, character by character. */
  function Lower(s: string): (r: string)
    ensures |r| == |s|
    ensures forall i :: 0 <= i < |s| ==> r[i] == LowerChar(s[i])
  {
    seq(|s|, i requires 0 <= i < |s| => LowerChar(s[i]))
  }

  /** Lower-casing never touches whitespace or line terminators, so it commutes with trim. */
  lemma {:induction false} TrimLowerCommute(s: string)
    ensures Trim(Lower(s)) == Lower(Trim(s))
  {
    LowerTrimStart(s);
    LowerTrimEnd(TrimStart(s));
  }

  lemma LowerKeepsTrimmable(c: char)
    ensures IsTrimmable(c) ==> LowerChar(c) == c
    ensures IsTrimmable(LowerChar(c)) <==> IsTrimmable(c)
  {
  }

  lemma {:induction false} LowerTrimStart(s: string)
    ensures TrimStart(Lower(s)) == Lower(TrimStart(s))
    decreases |s|
  {
    if s != [] {
      var l := Lower(s);
      LowerKeepsTrimmable(s[0]);
      assert l[0] == LowerChar(s[0]);
      if IsTrimmable(s[0]) {
        assert l[1..] == Lower(s[1..]);
        LowerTrimStart(s[1..]);
      }
    }
  }

  lemma {:induction false} LowerTrimEnd(s: string)
    ensures TrimEnd(Lower(s)) == Lower(TrimEnd(s))
    decreases |s|
  {
    if s != [] {
      var l := Lower(s);
      LowerKeepsTrimmable(s[|s| - 1]);
      assert l[|s| - 1] == LowerChar(s[|s| - 1]);
      if IsTrimmable(s[|s| - 1]) {
        assert l[..|s| - 1] == Lower(s[..|s| - 1]);
        LowerTrimEnd(s[..|s| - 1]);
      }
    }
  }

  /** Lower-casing distributes over concatenation. */
  lemma LowerAppend(a: string, b: string)
    ensures Lower(a + b) == Lower(a) + Lower(b)
  {
  }

  /** Lower-casing leaves a string without upper-case letters alone. */
  lemma LowerOfLower(s: string)
    requires forall i :: 0 <= i < |s| ==> !('A' <= s[i] <= 'Z')
    ensures Lower(s) == s
  {
  }

  /** Lower-casing leaves whitespace alone. */
  lemma LowerOfTrimmable(s: string)
    requires AllTrimmable(s)
    ensures Lower(s) == s
  {
    forall i | 0 <= i < |s| ensures Lower(s)[i] == s[i] {
      LowerKeepsTrimmable(s[i]);
    }
  }

  /** A string that neither starts nor ends with a trimmable character is its own trim. */
  lemma TrimOfTight(s: string)
    requires s != [] && !IsTrimmable(s[0]) && !IsTrimmable(s[|s| - 1])
    ensures Trim(s) == s
  {
    assert TrimStart(s) == s;
    assert TrimEnd(s) == s;
  }

  /** Leading trimmable characters do not change what trim returns. */
  lemma {:induction false} TrimIgnoresLeading(lead: string, s: string)
    requires AllTrimmable(lead)
    ensures Trim(lead + s) == Trim(s)
    decreases |lead|
  {
    if lead != [] {
      assert (lead + s)[1..] == lead[1..] + s;
      TrimIgnoresLeading(lead[1..], s);
    } else {
      assert lead + s == s;
    }
  }

  /** Lower-casing twice is lower-casing once. */
  lemma LowerIdempotent(s: string)
    ensures Lower(Lower(s)) == Lower(s)
  {
  }

  /** String.prototype.startsWith. */
  predicate StartsWith(s: string, prefix: string) {
    |prefix| <= |s| && s[..|prefix|] == prefix
  }

  /** String.prototype.includes: `sub` occurs at some position of `s`. */
  function Contains(s: string, sub: string): (b: bool)
    ensures b <==> exists i :: 0 <= i <= |s| - |sub| && StartsWith(s[i..], sub)
  {
    if StartsWith(s, sub) then
      assert StartsWith(s[0..], sub);
      true
    else if |s| <= |sub| || s == [] then
      false
    else
      var b := Contains(s[1..], sub);
      assert forall i :: 1 <= i <= |s| - |sub| ==> s[1..][i - 1..] == s[i..];
      if b then
        var i :| 0 <= i <= |s[1..]| - |sub| && StartsWith(s[1..][i..], sub);
        assert s[1..][i..] == s[i + 1..];
        true
      else
        false
  }

  /** What a greedy `(.+)` or `(.*)` captures at the start of `s`: the longest prefix
      that holds no line terminator. */
  function LineRun(s: string): (r: string)
    ensures |r| <= |s| && r == s[..|r|]
    ensures forall i :: 0 <= i < |r| ==> !IsLineTerminator(r[i])
    ensures |r| == |s| || IsLineTerminator(s[|r|])
  {
    if s == [] || IsLineTerminator(s[0]) then []
    else [s[0]] + LineRun(s[1..])
  }

  /** The run stops exactly at the first line break: a line followed by the end of the
      text or by a line terminator is captured whole and no further. */
  lemma {:induction false} LineRunStopsAt(line: string, t: string)
    requires forall i :: 0 <= i < |line| ==> !IsLineTerminator(line[i])
    requires t == [] || IsLineTerminator(t[0])
    ensures LineRun(line + t) == line
  {
    if line == [] {
      assert line + t == t;
    } else {
      assert (line + t)[1..] == line[1..] + t;
      LineRunStopsAt(line[1..], t);
    }
  }
}
