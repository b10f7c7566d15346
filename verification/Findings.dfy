/** The records of the finding lifecycle: src/queue/lifecycle/plan-findings.ts. */
module Findings {
  import opened Seqs

  datatype Source = Static | Ai

  datatype Severity = Critical | Major | Minor | Info

  datatype Status = New | Persisted | Reopened | Resolved

  type Id = int

  type ScanId = int

  /** What a finding says. A candidate of a scan is nothing more. */
  datatype Content = Content(
    source: Source,
    ruleId: string,
    severity: Severity,
    title: string,
    message: string,
    filePath: string,
    lineStart: int,
    lineEnd: int,
    snippet: Option<string>,
    fingerprint: string,
    suppressedReason: Option<string>,
    category: Option<string>,
    confidence: Option<real>,
    reportedSeverity: Option<Severity>,
    dedupeOfId: Option<Id>)

  /** What a re-run on the same commit left on a finding. */
  datatype Rerun = Rerun(previousSeverity: Option<Severity>, latestSeverity: Option<Severity>, notReproduced: bool)

  const NO_RERUN := Rerun(None, None, false)

  /** A finding row as read back from the database. */
  datatype Stored = Stored(id: Id, content: Content, rerun: Rerun, firstSeen: ScanId)

  /** A finding row of one scan. */
  datatype Row = Row(
    id: Id,
    content: Content,
    rerun: Rerun,
    status: Status,
    firstSeen: ScanId,
    origin: Option<Id>,
    resolvedIn: Option<ScanId>)

  function AsStored(row: Row): Stored {
    Stored(row.id, row.content, row.rerun, row.firstSeen)
  }

  /** What two findings are compared by. */
  datatype Matchable = Matchable(
    source: Source,
    filePath: string,
    lineStart: int,
    category: Option<string>,
    title: string,
    fingerprint: string)

  function MatchableOf(c: Content): Matchable {
    Matchable(c.source, c.filePath, c.lineStart, c.category, c.title, c.fingerprint)
  }

  /** A resolved finding a candidate may re-open. */
  datatype ResolvedFinding = ResolvedFinding(id: Id, what: Matchable, firstSeen: ScanId)

  function AsResolved(s: Stored): ResolvedFinding {
    ResolvedFinding(s.id, MatchableOf(s.content), s.firstSeen)
  }

  function ContentFingerprint(c: Content): string {
    c.fingerprint
  }

  function StoredFingerprint(s: Stored): string {
    s.content.fingerprint
  }
}
