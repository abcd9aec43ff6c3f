/**
 * The few Python `str` operations the wrapper relies on, over `seq<char>`:
 * `str.splitlines()`, `str.lower()` (ASCII letters only), the substring test
 * `sub in s`, `str.startswith` (Dafny's prefix test `p <= s`) and `str.endswith`.
 */
module PyStr {

  /** The line boundaries `str.splitlines()` recognises; "\r\n" is one boundary. */
  predicate IsLineBoundary(c: char) {
    c == '\n' || c == '\r' || c == '\U{000B}' || c == '\U{000C}'
    || c == '\U{001C}' || c == '\U{001D}' || c == '\U{001E}'
    || c == '\U{0085}' || c == '\U{2028}' || c == '\U{2029}'
  }

  predicate NoBoundary(s: string) {
    forall k :: 0 <= k < |s| ==> !IsLineBoundary(s[k])
  }

  /** Index of the first line boundary in `s`, or `|s|` when there is none. */
  function FirstBoundary(s: string): (i: nat)
    ensures i <= |s|
    ensures forall k :: 0 <= k < i ==> !IsLineBoundary(s[k])
    ensures i < |s| ==> IsLineBoundary(s[i])
  {
    if s == [] || IsLineBoundary(s[0]) then 0 else 1 + FirstBoundary(s[1..])
  }

  /** Length of the boundary that starts at `s[i]`: 2 for "\r\n", else 1. */
  function BoundaryLength(s: string, i: nat): (n: nat)
    requires i < |s|
    ensures 1 <= n && i + n <= |s|
  {
    if s[i] == '\r' && i + 1 < |s| && s[i + 1] == '\n' then 2 else 1
  }

  /**
   * `str.splitlines()`: the text cut at every line boundary, the boundaries
   * dropped, and no empty last line for a trailing boundary.
   */
  function SplitLines(s: string): (lines: seq<string>)
    ensures forall k :: 0 <= k < |lines| ==> NoBoundary(lines[k])
    ensures lines == [] <==> s == []
    decreases |s|
  {
    if s == [] then []
    else
      var i := FirstBoundary(s);
      if i == |s| then [s]
      else [s[..i]] + SplitLines(s[i + BoundaryLength(s, i)..])
  }

  /** The text of `lines`, each one followed by "\n". */
  function JoinTerminated(lines: seq<string>): string {
    if lines == [] then [] else lines[0] + "\n" + JoinTerminated(lines[1..])
  }

  lemma {:induction false} FirstBoundaryAfter(line: string, rest: string)
    requires NoBoundary(line)
    requires rest != [] && IsLineBoundary(rest[0])
    ensures FirstBoundary(line + rest) == |line|
    decreases |line|
  {
    if line != [] {
      assert (line + rest)[1..] == line[1..] + rest;
      FirstBoundaryAfter(line[1..], rest);
    } else {
      assert line + rest == rest;
    }
  }

  /** Splitting text written one line per "\n" gives the lines back. */
  lemma {:induction false} SplitJoin(lines: seq<string>)
    requires forall k :: 0 <= k < |lines| ==> NoBoundary(lines[k])
    ensures SplitLines(JoinTerminated(lines)) == lines
    decreases |lines|
  {
    if lines != [] {
      var l, rest := lines[0], JoinTerminated(lines[1..]);
      var s := l + "\n" + rest;
      assert s == l + ("\n" + rest);
      FirstBoundaryAfter(l, "\n" + rest);
      assert s[..|l|] == l;
      assert s[|l|] == '\n';
      assert BoundaryLength(s, |l|) == 1;
      assert s[|l| + 1..] == rest;
      SplitJoin(lines[1..]);
      assert SplitLines(s) == [l] + SplitLines(rest);
    }
  }

  /** Text that uses only "\n" as its boundary and ends in one is its lines, joined back. */
  lemma {:induction false} JoinSplit(s: string)
    requires forall k :: 0 <= k < |s| && IsLineBoundary(s[k]) ==> s[k] == '\n'
    requires s == [] || s[|s| - 1] == '\n'
    ensures JoinTerminated(SplitLines(s)) == s
    decreases |s|
  {
    if s != [] {
      var i := FirstBoundary(s);
      assert i < |s| by {
        if i == |s| { assert IsLineBoundary(s[|s| - 1]); }
      }
      assert s[i] == '\n';
      assert BoundaryLength(s, i) == 1;
      var rest := s[i + 1..];
      JoinSplit(rest);
      assert SplitLines(s) == [s[..i]] + SplitLines(rest);
      assert s == s[..i] + "\n" + rest;
    }
  }

  /** `str.lower()` on one character, for the ASCII letters A-Z. */
  function LowerChar(c: char): char {
    if 'A' <= c <= 'Z' then (c as int + 32) as char else c
  }

  function Lower(s: string): (r: string)
    ensures |r| == |s|
    ensures forall k :: 0 <= k < |s| ==> r[k] == LowerChar(s[k])
  {
    seq(|s|, k requires 0 <= k < |s| => LowerChar(s[k]))
  }

  /** Lower-casing leaves no ASCII capital behind and is idempotent. */
  lemma LowerIsLower(s: string)
    ensures forall k :: 0 <= k < |s| ==> !('A' <= Lower(s)[k] <= 'Z')
    ensures Lower(Lower(s)) == Lower(s)
  {
  }

  /** `sub` occurs in `s` starting at index `i`. */
  predicate OccursAt(s: string, sub: string, i: int) {
    0 <= i && i + |sub| <= |s| && s[i..i + |sub|] == sub
  }

  /** Python's `sub in s`. */
  predicate Contains(s: string, sub: string)
    ensures Contains(s, sub) ==> |sub| <= |s|
    ensures sub <= s ==> Contains(s, sub)
    decreases |s|
  {
    sub <= s || (s != [] && Contains(s[1..], sub))
  }

  /** The recursive substring test agrees with "occurs at some index". */
  lemma OccursAtStart(s: string, sub: string)
    ensures OccursAt(s, sub, 0) <==> sub <= s
  {
    if sub <= s {
      assert s[0..|sub|] == sub;
    }
  }

  lemma {:induction false} ContainsIffOccurs(s: string, sub: string)
    ensures Contains(s, sub) <==> exists i :: OccursAt(s, sub, i)
    decreases |s|
  {
    OccursAtStart(s, sub);
    if s != [] && !(sub <= s) {
      ContainsIffOccurs(s[1..], sub);
      if Contains(s[1..], sub) {
        var i :| OccursAt(s[1..], sub, i);
        assert s[1..][i..i + |sub|] == s[i + 1..i + 1 + |sub|];
        assert OccursAt(s, sub, i + 1);
      }
      if exists i :: OccursAt(s, sub, i) {
        var i :| OccursAt(s, sub, i);
        assert i != 0;
        assert s[1..][i - 1..i - 1 + |sub|] == s[i..i + |sub|];
        assert OccursAt(s[1..], sub, i - 1);
      }
    }
  }

  /** Python's `s.endswith(suffix)`. */
  predicate EndsWith(s: string, suffix: string)
    ensures EndsWith(s, suffix) <==>
      |suffix| <= |s| && forall k :: 0 <= k < |suffix| ==> s[|s| - |suffix| + k] == suffix[k]
  {
    |suffix| <= |s| && s[|s| - |suffix|..] == suffix
  }
}
