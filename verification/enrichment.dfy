/**
 * The enrichment step of the wrapper's `main`: every finding of the parsed
 * report gets a `context` key, in place, and the enriched list is written
 * out only when there was at least one finding.
 */
module Enrichment {
  import opened Wrappers
  import opened Extraction

  /** The context stored for a finding: the extracted slice, or [] when extraction failed. */
  function StoredContext(finding: Finding, repo: Repository): (c: seq<string>)
    ensures ExtractContext(finding, repo).None? ==> c == []
    ensures ExtractContext(finding, repo).Some? ==> c == ExtractContext(finding, repo).value
  {
    ExtractContext(finding, repo).GetOr([])
  }

  /** `finding["context"] = ...`: the finding with its context key set and nothing else changed. */
  function Enriched(finding: Finding, repo: Repository): (g: Finding)
    ensures g.context == Some(StoredContext(finding, repo))
    ensures g.file == finding.file && g.commit == finding.commit
    ensures g.startLine == finding.startLine && g.endLine == finding.endLine
    ensures g.others == finding.others
  {
    finding.(context := Some(StoredContext(finding, repo)))
  }

  /** The whole list after the loop, finding by finding. */
  function EnrichedAll(findings: seq<Finding>, repo: Repository): (gs: seq<Finding>)
    ensures |gs| == |findings|
    ensures forall i :: 0 <= i < |gs| ==> gs[i] == Enriched(findings[i], repo)
  {
    seq(|findings|, i requires 0 <= i < |findings| => Enriched(findings[i], repo))
  }

  /**
   * The loop `for finding in findings: finding["context"] = ...`, run in
   * place over the list.
   */
  method Enrich(findings: array<Finding>, repo: Repository)
    modifies findings
    ensures findings[..] == EnrichedAll(old(findings[..]), repo)
  {
    for i := 0 to findings.Length
      invariant forall k :: 0 <= k < i ==> findings[k] == Enriched(old(findings[k]), repo)
      invariant forall k :: i <= k < findings.Length ==> findings[k] == old(findings[k])
    {
      var context := ExtractContext(findings[i], repo);
      findings[i] := findings[i].(context := Some(if context.Some? then context.value else []));
    }
  }

  /**
   * After enrichment every finding has a context, count and order are kept,
   * and no other field of any finding changes.
   */
  lemma EnrichedAllKeepsFindings(findings: seq<Finding>, repo: Repository)
    ensures |EnrichedAll(findings, repo)| == |findings|
    ensures forall i :: 0 <= i < |findings| ==>
      var g := EnrichedAll(findings, repo)[i];
      g.context.Some? && g == findings[i].(context := g.context)
  {
  }

  /** A finding whose content cannot be read gets the empty context; the others are unaffected. */
  lemma {:induction false} UnreadableGetsEmptyContext(findings: seq<Finding>, repo: Repository, i: nat)
    requires i < |findings|
    requires IsFalsy(findings[i].commit) ==> findings[i].file !in repo.workTree
    requires !IsFalsy(findings[i].commit) ==> (findings[i].commit.value, findings[i].file) !in repo.history
    ensures EnrichedAll(findings, repo)[i].context == Some([])
  {
    ExtractFailsWhenUnreadable(findings[i], repo);
  }

  /** Findings are enriched independently: enriching a concatenation is concatenating the enrichments. */
  lemma EnrichedAllAppend(xs: seq<Finding>, ys: seq<Finding>, repo: Repository)
    ensures EnrichedAll(xs + ys, repo) == EnrichedAll(xs, repo) + EnrichedAll(ys, repo)
  {
  }

  /** Enriching an already enriched list changes nothing. */
  lemma {:induction false} EnrichedAllIdempotent(findings: seq<Finding>, repo: Repository)
    ensures EnrichedAll(EnrichedAll(findings, repo), repo) == EnrichedAll(findings, repo)
  {
    var gs := EnrichedAll(findings, repo);
    forall i | 0 <= i < |gs|
      ensures Enriched(gs[i], repo) == gs[i]
    {
      ExtractIgnoresContext(findings[i], repo, gs[i].context);
    }
  }

  /**
   * What `json.load` produced from the report: a list of findings, another
   * falsy JSON value (`null`, `{}`, `0`, `false`, `""`), or a decode error.
   */
  datatype Report = Decoded(findings: seq<Finding>) | FalsyValue | DecodeError

  /** A decode error, and any falsy value, is handled as an empty list of findings. */
  function ReportFindings(report: Report): (fs: seq<Finding>)
    ensures report.DecodeError? || report.FalsyValue? ==> fs == []
    ensures report.Decoded? ==> fs == report.findings
  {
    match report
    case Decoded(findings) => findings
    case FalsyValue => []
    case DecodeError => []
  }

  /**
   * The report step of `main`: no output file for an empty finding list
   * ("No vulnerabilities found."), otherwise the enriched list written to
   * the output file.
   */
  method ProcessReport(report: Report, repo: Repository) returns (output: Option<seq<Finding>>)
    ensures output.None? <==> ReportFindings(report) == []
    ensures report.DecodeError? || report.FalsyValue? ==> output.None?
    ensures output.Some? ==> output.value == EnrichedAll(ReportFindings(report), repo)
  {
    var findings := ReportFindings(report);
    if findings == [] {
      output := None;
    } else {
      var list := new Finding[|findings|](i requires 0 <= i < |findings| => findings[i]);
      Enrich(list, repo);
      output := Some(list[..]);
    }
  }
}
