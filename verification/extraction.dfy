/**
 * Context extraction for one gitleaks finding: where the file's lines come
 * from (the working tree or a historical commit), which window of lines
 * around the finding is kept, and how the line list is sliced.
 */
module Extraction {
  import opened Wrappers
  import opened PyStr

  /** Lines of surrounding code kept on each side of a finding. */
  const Padding := 3

  /**
   * One entry of the gitleaks JSON report. `startLine`/`endLine` are the
   * 1-based inclusive `StartLine`/`EndLine`; `commit` is `None` when the
   * `Commit` key is missing; `context` is `None` until enrichment adds the
   * key; `others` stands for every other key of the entry, which the
   * wrapper only carries along. Their values (strings, numbers, lists such
   * as `Tags`) are abstracted to strings: only whether they change matters.
   */
  datatype Finding = Finding(
    file: string,
    commit: Option<string>,
    startLine: int,
    endLine: int,
    context: Option<seq<string>>,
    others: map<string, string>)

  /**
   * What the content sources can see. `workTree` maps a path, relative to
   * the repository root, to the text of a file that can be opened and
   * decoded as strict UTF-8; `history` maps a (commit, path) pair that
   * `git show commit:path` resolves to its text after lossy UTF-8 decoding.
   */
  datatype Repository = Repository(
    workTree: map<string, string>,
    history: map<(string, string), string>)

  /** Python's `not commit`: the key is missing or holds "". */
  predicate IsFalsy(commit: Option<string>)
    ensures IsFalsy(commit) <==> commit.GetOr("") == ""
  {
    commit.None? || commit.value == ""
  }

  /** The content source: the file's lines, or `None` when it cannot be read. */
  function ReadLines(repo: Repository, path: string, commit: Option<string>): (r: Option<seq<string>>)
    ensures IsFalsy(commit) ==> (r.Some? <==> path in repo.workTree)
    ensures !IsFalsy(commit) ==> (r.Some? <==> (commit.value, path) in repo.history)
    ensures IsFalsy(commit) && r.Some? ==> r.value == SplitLines(repo.workTree[path])
    ensures !IsFalsy(commit) && r.Some? ==> r.value == SplitLines(repo.history[(commit.value, path)])
    ensures r.Some? ==> forall k :: 0 <= k < |r.value| ==> NoBoundary(r.value[k])
  {
    if IsFalsy(commit) then
      if path in repo.workTree then Some(SplitLines(repo.workTree[path])) else None
    else
      var key := (commit.value, path);
      if key in repo.history then Some(SplitLines(repo.history[key])) else None
  }

  /** The half-open 0-based window `[from, to)`; `to` may be negative. */
  datatype Window = Window(from: int, to: int)

  function Max(a: int, b: int): int { if a < b then b else a }
  function Min(a: int, b: int): int { if a < b then a else b }

  /** `context_start`/`context_end` for a finding in a file of `total` lines. */
  function ContextWindow(startLine: int, endLine: int, total: nat): (w: Window)
    ensures 0 <= w.from && w.to <= total
    ensures startLine - 1 - Padding <= w.from && endLine + Padding >= w.to
    ensures w.from == 0 || w.from == startLine - 1 - Padding
    ensures w.to == total || w.to == endLine + Padding
  {
    Window(Max(0, startLine - 1 - Padding), Min(total, endLine - 1 + Padding + 1))
  }

  /** A valid range that starts at most four lines past the end of the file (`StartLine <= total + 4`) gives a window that is not inverted. */
  lemma WindowOrdered(startLine: int, endLine: int, total: nat)
    requires 1 <= startLine <= endLine
    requires startLine - 1 - Padding <= total
    ensures ContextWindow(startLine, endLine, total).from <= ContextWindow(startLine, endLine, total).to
  {
  }

  /** Python's reading of a slice index `k` for a sequence of length `n`. */
  function SliceIndex(k: int, n: nat): (r: nat)
    ensures r <= n
    ensures 0 <= k <= n ==> r == k
    ensures k > n ==> r == n
    ensures k < 0 && 0 <= k + n ==> r == k + n
    ensures k + n < 0 ==> r == 0
  {
    if k < 0 then Max(0, k + n) else Min(k, n)
  }

  /** Python's `s[i:j]`: negative indices count from the end, then both are clamped. */
  function PySlice<T>(s: seq<T>, i: int, j: int): (r: seq<T>)
    ensures |r| <= |s|
    ensures SliceIndex(i, |s|) + |r| <= |s|
    ensures forall k :: 0 <= k < |r| ==> r[k] == s[SliceIndex(i, |s|) + k]
    ensures r == [] <==> SliceIndex(j, |s|) <= SliceIndex(i, |s|)
    ensures SliceIndex(i, |s|) < SliceIndex(j, |s|) ==> |r| == SliceIndex(j, |s|) - SliceIndex(i, |s|)
  {
    var lo, hi := SliceIndex(i, |s|), SliceIndex(j, |s|);
    if lo < hi then s[lo..hi] else []
  }

  /** The slice `lines[context_start:context_end]` exactly as the source writes it. */
  function ContextAsWritten(lines: seq<string>, startLine: int, endLine: int): (r: seq<string>)
    ensures |r| <= |lines|
    ensures r != [] ==> ContextWindow(startLine, endLine, |lines|).from + |r| <= |lines|
    ensures forall k :: 0 <= k < |r| ==> r[k] == lines[ContextWindow(startLine, endLine, |lines|).from + k]
    ensures var w := ContextWindow(startLine, endLine, |lines|);
      0 <= w.to ==> (r == [] <==> w.to <= w.from)
    ensures var w := ContextWindow(startLine, endLine, |lines|);
      w.to < 0 && w.from < w.to + |lines| ==> r == lines[w.from..w.to + |lines|]
    ensures var w := ContextWindow(startLine, endLine, |lines|);
      0 <= w.from < w.to ==> |r| == w.to - w.from
    ensures var w := ContextWindow(startLine, endLine, |lines|);
      w.to < 0 && w.to + |lines| <= w.from ==> r == []
  {
    var w := ContextWindow(startLine, endLine, |lines|);
    PySlice(lines, w.from, w.to)
  }

  /**
   * The context with the window end clamped at 0 as well, so that the
   * slice never counts from the end of the file. This is the definition
   * the rest of the model uses.
   */
  function Context(lines: seq<string>, startLine: int, endLine: int): (r: seq<string>)
    ensures |r| <= |lines|
    ensures r != [] ==> ContextWindow(startLine, endLine, |lines|).from + |r| <= |lines|
    ensures forall k :: 0 <= k < |r| ==> r[k] == lines[ContextWindow(startLine, endLine, |lines|).from + k]
  {
    var w := ContextWindow(startLine, endLine, |lines|);
    PySlice(lines, w.from, Max(w.to, 0))
  }

  /** Line index `i` (0-based) lies within `Padding` lines of the finding's range. */
  predicate NearFinding(startLine: int, endLine: int, i: int) {
    startLine - 1 - Padding <= i <= endLine - 1 + Padding
  }

  /**
   * The context is exactly the file's lines that lie within the padding of
   * the finding, in file order: a line is in it if and only if it is near.
   */
  lemma ContextIsNearLines(lines: seq<string>, startLine: int, endLine: int)
    ensures var r, from := Context(lines, startLine, endLine), ContextWindow(startLine, endLine, |lines|).from;
      forall i :: 0 <= i < |lines| ==>
        (NearFinding(startLine, endLine, i) <==> from <= i < from + |r|)
  {
    var w := ContextWindow(startLine, endLine, |lines|);
    var lo, hi := SliceIndex(w.from, |lines|), SliceIndex(Max(w.to, 0), |lines|);
    assert |Context(lines, startLine, endLine)| == if lo < hi then hi - lo else 0;
  }

  /** No line of the file is near the finding exactly when the context is empty. */
  lemma {:induction false} ContextEmptyIff(lines: seq<string>, startLine: int, endLine: int)
    ensures Context(lines, startLine, endLine) == []
        <==> forall i :: 0 <= i < |lines| ==> !NearFinding(startLine, endLine, i)
  {
    ContextIsNearLines(lines, startLine, endLine);
    var r := Context(lines, startLine, endLine);
    var from := ContextWindow(startLine, endLine, |lines|).from;
    if r != [] {
      assert NearFinding(startLine, endLine, from);
    }
  }

  /** A window with `context_start >= context_end` gives no context, never an error. */
  lemma ContextEmptyCases(lines: seq<string>, startLine: int, endLine: int)
    requires ContextWindow(startLine, endLine, |lines|).from >= ContextWindow(startLine, endLine, |lines|).to
    ensures Context(lines, startLine, endLine) == []
    ensures ContextWindow(startLine, endLine, |lines|).to >= 0 ==> ContextAsWritten(lines, startLine, endLine) == []
  {
  }

  /** An empty file, or a start five or more lines past its end, gives an inverted or empty window. */
  lemma WindowEmptyCases(lines: seq<string>, startLine: int, endLine: int)
    requires |lines| == 0 || startLine >= |lines| + 1 + Padding + 1
    ensures ContextWindow(startLine, endLine, |lines|).from >= ContextWindow(startLine, endLine, |lines|).to
  {
  }

  /** A valid range yields at most the range itself plus the padding on both sides. */
  lemma {:induction false} ContextLengthBound(lines: seq<string>, startLine: int, endLine: int)
    requires 1 <= startLine <= endLine
    ensures |Context(lines, startLine, endLine)| <= (endLine - startLine + 1) + 2 * Padding
  {
    ContextIsNearLines(lines, startLine, endLine);
    var r := Context(lines, startLine, endLine);
    var from := ContextWindow(startLine, endLine, |lines|).from;
    if r != [] {
      assert NearFinding(startLine, endLine, from);
      assert NearFinding(startLine, endLine, from + |r| - 1);
    }
  }

  /** A finding inside the file has all its own lines, contiguously, in its context. */
  lemma {:induction false} ContextHoldsFinding(lines: seq<string>, startLine: int, endLine: int)
    requires 1 <= startLine <= endLine <= |lines|
    ensures var r, off := Context(lines, startLine, endLine), (startLine - 1) - ContextWindow(startLine, endLine, |lines|).from;
      0 <= off && off + (endLine - startLine + 1) <= |r|
      && r[off..off + (endLine - startLine + 1)] == lines[startLine - 1..endLine]
  {
    ContextIsNearLines(lines, startLine, endLine);
    var r := Context(lines, startLine, endLine);
    assert NearFinding(startLine, endLine, startLine - 1);
    assert NearFinding(startLine, endLine, endLine - 1);
  }

  /** The two slices agree whenever `context_end` is not negative, i.e. `EndLine >= -3`. */
  lemma ContextAsWrittenAgrees(lines: seq<string>, startLine: int, endLine: int)
    requires endLine >= -Padding
    ensures ContextAsWritten(lines, startLine, endLine) == Context(lines, startLine, endLine)
  {
  }

  /** The ten-line file of the examples: "a" to "j". */
  function TenLines(): seq<string> {
    ["a", "b", "c", "d", "e", "f", "g", "h", "i", "j"]
  }

  /**
   * As written, `EndLine = -5` gives `context_end = -2`, which Python reads
   * as "two before the end": eight lines of context for a range whose
   * window, once the end is clamped at 0 like the start, is inverted.
   */
  lemma ContextAsWrittenWrapsNegativeEnd()
    ensures ContextAsWritten(TenLines(), 1, -5) == TenLines()[..8]
    ensures Context(TenLines(), 1, -5) == []
  {
  }

  lemma ContextExamples()
    ensures Context(TenLines(), 5, 6) == ["b", "c", "d", "e", "f", "g", "h", "i"]
    ensures Context(TenLines(), 1, 1) == ["a", "b", "c", "d"]
    ensures Context(TenLines(), 9, 10) == ["f", "g", "h", "i", "j"]
  {
    assert TenLines()[1..9] == ["b", "c", "d", "e", "f", "g", "h", "i"];
    assert TenLines()[0..4] == ["a", "b", "c", "d"];
    assert TenLines()[5..10] == ["f", "g", "h", "i", "j"];
  }

  /**
   * `extract_context_for_finding`: read the lines from the source the
   * finding's commit selects and slice the window, or `None` when the
   * content cannot be read. It slices with the clamped end of `Context`;
   * for every `EndLine >= -3` that is the source's own slice.
   */
  function ExtractContext(finding: Finding, repo: Repository): (r: Option<seq<string>>)
    ensures r.None? <==> ReadLines(repo, finding.file, finding.commit).None?
    ensures r.Some? ==> r.value == Context(ReadLines(repo, finding.file, finding.commit).value, finding.startLine, finding.endLine)
    ensures r.Some? && finding.endLine >= -Padding ==>
      r.value == ContextAsWritten(ReadLines(repo, finding.file, finding.commit).value, finding.startLine, finding.endLine)
  {
    match ReadLines(repo, finding.file, finding.commit)
    case None => None
    case Some(lines) => Some(Context(lines, finding.startLine, finding.endLine))
  }

  /** A missing working-tree file, or an unresolvable `commit:path`, yields `None`. */
  lemma ExtractFailsWhenUnreadable(finding: Finding, repo: Repository)
    requires IsFalsy(finding.commit) ==> finding.file !in repo.workTree
    requires !IsFalsy(finding.commit) ==> (finding.commit.value, finding.file) !in repo.history
    ensures ExtractContext(finding, repo) == None
  {
  }

  /** Extraction reads only the file, commit and line range, never an existing context. */
  lemma ExtractIgnoresContext(finding: Finding, repo: Repository, context: Option<seq<string>>)
    ensures ExtractContext(finding.(context := context), repo) == ExtractContext(finding, repo)
  {
  }
}
