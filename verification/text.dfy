/**
 * Text helpers the shopping list relies on: JavaScript's `String.prototype.trim`
 * (used to reject blank input) and a line view of text, used to read the share
 * message back as the lines it is made of.
 */
module Text {

  /** The code points `trim` removes: ECMAScript's WhiteSpace and LineTerminator characters. */
  predicate IsTrimmable(c: char)
  {
    || c == '\t' || c == '\n' || c == '\U{000B}' || c == '\U{000C}' || c == '\r' || c == ' '
    || c == '\U{00A0}' || c == '\U{1680}' || ('\U{2000}' <= c <= '\U{200A}')
    || c == '\U{2028}' || c == '\U{2029}' || c == '\U{202F}' || c == '\U{205F}'
    || c == '\U{3000}' || c == '\U{FEFF}'
  }

  /** A string is blank when every character in it is one `trim` removes (the empty string is blank). */
  predicate IsBlank(s: string)
  {
    forall i :: 0 <= i < |s| ==> IsTrimmable(s[i])
  }

  /** `t` is `s` with a blank prefix dropped, and it does not start with a trimmable character. */
  predicate BlankPrefixDropped(s: string, t: string)
  {
    && |t| <= |s| && t == s[|s| - |t|..]
    && IsBlank(s[..|s| - |t|])
    && (t == [] || !IsTrimmable(t[0]))
  }

  /** `r` is `s` with a blank suffix dropped, and it does not end with a trimmable character. */
  predicate BlankSuffixDropped(s: string, r: string)
  {
    && |r| <= |s| && r == s[..|r|]
    && IsBlank(s[|r|..])
    && (r == [] || !IsTrimmable(r[|r| - 1]))
  }

  /** `s` without its leading trimmable characters. */
  function TrimStart(s: string): string
  {
    if s != [] && IsTrimmable(s[0]) then TrimStart(s[1..]) else s
  }

  /** `s` without its trailing trimmable characters. */
  function TrimEnd(s: string): string
  {
    if s != [] && IsTrimmable(s[|s| - 1]) then TrimEnd(s[..|s| - 1]) else s
  }

  /** `TrimStart` drops the longest blank prefix. */
  lemma {:induction false} TrimStartDrops(s: string)
    ensures BlankPrefixDropped(s, TrimStart(s))
  {
    if s != [] && IsTrimmable(s[0]) {
      var r := TrimStart(s[1..]);
      TrimStartDrops(s[1..]);
      assert s[..|s| - |r|] == [s[0]] + s[1..][..|s| - 1 - |r|];
    }
  }

  /** `TrimEnd` drops the longest blank suffix. */
  lemma {:induction false} TrimEndDrops(s: string)
    ensures BlankSuffixDropped(s, TrimEnd(s))
  {
    if s != [] && IsTrimmable(s[|s| - 1]) {
      var r := TrimEnd(s[..|s| - 1]);
      TrimEndDrops(s[..|s| - 1]);
      assert s[|r|..] == s[..|s| - 1][|r|..] + [s[|s| - 1]];
    }
  }

  /**
   * JavaScript's `s.trim()`: what is left of `s` after dropping its blank prefix and
   * its blank suffix; it starts and ends with a character `trim` keeps, and it is
   * empty exactly when `s` is blank.
   */
  function Trim(s: string): (r: string)
    ensures |r| <= |s|
    ensures r == [] || (!IsTrimmable(r[0]) && !IsTrimmable(r[|r| - 1]))
    ensures r == [] <==> IsBlank(s)
  {
    var t := TrimStart(s);
    var r := TrimEnd(t);
    TrimStartDrops(s);
    TrimEndDrops(t);
    TrimEmptyIffBlank(s, t, r);
    r
  }

  /** `trim` keeps an infix of `s`: only a blank prefix and a blank suffix are dropped. */
  lemma TrimIsInfix(s: string)
    ensures var r := Trim(s);
      exists i :: 0 <= i <= |s| - |r| && r == s[i..i + |r|] && IsBlank(s[..i]) && IsBlank(s[i + |r|..])
  {
    TrimStartDrops(s);
    TrimEndDrops(TrimStart(s));
    TrimInfix(s, TrimStart(s), Trim(s));
  }

  /** The step `TrimIsInfix` needs, stated on the two halves of `trim`. */
  lemma TrimInfix(s: string, t: string, r: string)
    requires BlankPrefixDropped(s, t) && BlankSuffixDropped(t, r)
    ensures exists i :: 0 <= i <= |s| - |r| && r == s[i..i + |r|] && IsBlank(s[..i]) && IsBlank(s[i + |r|..])
  {
    var i := |s| - |t|;
    PrefixOfSuffix(s, t, r, i);
    assert r == s[i..i + |r|] && IsBlank(s[..i]) && IsBlank(s[i + |r|..]);
  }

  /** A prefix `r` of the suffix `t` of `s` starting at `i` is the infix of `s` at `i`, and what follows it in `t` is what follows it in `s`. */
  lemma PrefixOfSuffix(s: string, t: string, r: string, i: nat)
    requires i <= |s| && t == s[i..] && |r| <= |t| && r == t[..|r|]
    ensures i + |r| <= |s| && r == s[i..i + |r|] && t[|r|..] == s[i + |r|..]
  {
  }

  /** The step `Trim` needs: its result is empty exactly when the input is blank. */
  lemma TrimEmptyIffBlank(s: string, t: string, r: string)
    requires BlankPrefixDropped(s, t) && BlankSuffixDropped(t, r)
    ensures r == [] <==> IsBlank(s)
  {
    var k := |s| - |t|;
    if r == [] {
      // t is blank, so it is empty, and s is all blank prefix
      assert t[|r|..] == t;
      assert t == [];
      assert s[..k] == s;
    } else {
      assert r[0] == t[0] == s[k];
    }
  }

  // ----- lines -----

  /** No line break inside a line. */
  predicate NoNewline(line: string)
  {
    '\n' !in line
  }

  /** The text made of `lines`, each followed by a line break. */
  function JoinLines(lines: seq<string>): string
  {
    if lines == [] then [] else lines[0] + "\n" + JoinLines(lines[1..])
  }

  /** Joining two groups of lines is joining each group and concatenating the texts. */
  lemma {:induction false} JoinLinesAppend(a: seq<string>, b: seq<string>)
    ensures JoinLines(a + b) == JoinLines(a) + JoinLines(b)
  {
    if a != [] {
      assert (a + b)[1..] == a[1..] + b;
      JoinLinesAppend(a[1..], b);
    } else {
      assert a + b == b;
    }
  }

  /** The index of the first line break of `s`, or `|s|` if it has none. */
  function LineEnd(s: string): (k: nat)
    ensures k <= |s|
    ensures k < |s| ==> s[k] == '\n'
    ensures forall j :: 0 <= j < k ==> s[j] != '\n'
  {
    if s == [] || s[0] == '\n' then 0 else 1 + LineEnd(s[1..])
  }

  /** The first line break after a line without one is the one that ends it. */
  lemma {:induction false} LineEndOfLine(line: string, rest: string)
    requires NoNewline(line)
    ensures LineEnd(line + "\n" + rest) == |line|
  {
    if line != [] {
      assert (line + "\n" + rest)[1..] == line[1..] + "\n" + rest;
      assert line[0] in line;
      LineEndOfLine(line[1..], rest);
    }
  }

  /** The lines of `s`, cut at each line break; a final line without a break is kept. */
  function SplitLines(s: string): seq<string>
    decreases |s|
  {
    if s == [] then []
    else
      var k := LineEnd(s);
      [s[..k]] + (if k < |s| then SplitLines(s[k + 1..]) else [])
  }

  /** Splitting joined lines gives the lines back, as long as no line holds a line break. */
  lemma {:induction false} SplitJoinLines(lines: seq<string>)
    requires forall i :: 0 <= i < |lines| ==> NoNewline(lines[i])
    ensures SplitLines(JoinLines(lines)) == lines
  {
    if lines != [] {
      var line, rest := lines[0], JoinLines(lines[1..]);
      var s := line + "\n" + rest;
      assert JoinLines(lines) == s;
      LineEndOfLine(line, rest);
      assert s[..|line|] == line;
      assert s[|line| + 1..] == rest;
      SplitJoinLines(lines[1..]);
    }
  }
}
