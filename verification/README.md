# The scan pipeline, verified

A pull-request scanner re-scans a pull request after every push. Each finding it
reported has to be followed from scan to scan: it persists, it is resolved, it is
re-opened, or it is new. This project models the engine that decides so, the protocol
by which concurrent workers commit its results, and the text and list algorithms that
feed it, and proves what they promise.

`dafny verify dfyconfig.toml` checks everything.

## How it is laid out

| file | models |
|---|---|
| `Seqs.dfy`, `Sorting.dfy` | optional values, filters, multisets, distinctness; a stable sort |
| `DiffParser.dfy`, `LineMapping.dfy`, `CarryForward.dfy` | unified diffs, old lines to new lines, findings through a push |
| `JaroWinkler.dfy` | the similarity of two titles |
| `Findings.dfy`, `StatusMatcher.dfy`, `PlanFindings.dfy` | finding records, matching and re-opening, the rows of one scan |
| `PlanProperties.dfy`, `PlanRows.dfy`, `PlanContents.dfy` | what a plan conserves, and what each of its rows is and says |
| `History.dfy`, `ScanCounts.dfy`, `HistoryCounts.dfy`, `MiscountedHistory.dfy` | any number of scans: provenance, no double counting, counts |
| `CarriedHistory.dfy` | the rows of any number of scans against the files of their commits |
| `ScanStore.dfy`, `ScanQueue.dfy`, `ScanProtocol.dfy` | the scan tables, an enqueue and a worker undisturbed, and every interleaving of them |
| `DedupeFindings.dfy`, `AiDeduper.dfy` | one finding per fingerprint; AI findings folded and set against static ones |
| `CommentSpan.dfy`, `RegexOpeners.dfy`, `RegexLiteral.dfy`, `RegexGivingUp.dfy` | the two line scanners |
| `RangeMerge.dfy`, `PromptRender.dfy`, `PromptExact.dfy`, `PromptExamples.dfy`, `PromptBudget.dfy` | what the model is shown of a diff |

Code that works step by step is a method, proved equal to a function of its inputs or of
the old state; the properties are lemmas about that function. Functions, predicates and
lemmas are used where the source is made of expressions.

Three kinds of reference are proved against:

- *Patch application.* A finding's line is followed by reading hunk headers. The reference
  applies the patch to the old file and records where each new line came from. Hunk
  headers follow the "Diff -u or -U Output Format" of the `diff` utility in POSIX.1-2017
  (IEEE Std 1003.1), with the rule that a count of zero names the preceding line.
- *One-character lexers.* The comment scanner jumps from delimiter to delimiter; the
  reference reads one character at a time. String and regular-expression reads are
  compared with a direct definition of "escaped" and "in a character class".
- *Runs.* The protocol is a transition system. Worker steps interleave freely, two workers
  may hold one stalled job, any of them may vanish, and the steps of an enqueue interleave
  with them. The update methods of `ScanStore.Tables` are the transactions. Scan histories
  take a scan's reads and its commit as one step; `ScanProtocol.CommitSeesWhatWasRead`
  is why they may.

Where a promise does not hold of the code, a lemma gives an input and another says when it
does hold:

- A file added under the old path of a rename, listed after it, takes over the path: the
  finding is carried to a line past the end of the new file
  (`CarryForward.TakeoverExample`). Carrying is faithful exactly when no added file comes
  last among those that claim the path and, for a file without a patch, the finding's lines
  have not changed (`CarryForward.CarryIsFaithfulIff`).
- The unconditional write after a failed queue add overwrites DONE if the add did leave a
  job (`ScanProtocol.LeftoverJobLosesDone`); it keeps every table invariant exactly when
  the scan is not DONE (`ScanStore.Tables.FailUnqueuedScan`).
- `resolvedCount` subtracts re-openings without looking at suppression. It is right
  exactly under the condition of `HistoryCounts.ResolvedCountRightIffBalanced`, and
  `MiscountedHistory.MiscountIsReachable` is a history of two scans in which it is wrong.
- The comment at `src/queue/rules/regex-literal.ts:91-96` says that giving up after a
  failing read can only miss a suppression and never invent one. On
  `/[/"/" pattern:"x"` it finds a literal that a scan without the flag does not
  (`RegexGivingUp.GivingUpInvents`). The flag changes a turn of the scan exactly when a
  read is declined that would have closed (`RegexGivingUp.GivingUpMattersIff`), and
  invents or misses only past the first such read
  (`RegexGivingUp.InventsOnlyPastDeclined`).
- An added line is not shown to the model when the head file at hand is shorter than the
  hunk (`PromptExamples.ShortHeadExample`; `PromptExact.AddedLinesArePrinted` says exactly
  when it is).
- A flagged value does leave when a deleted line that is printed has it: deleted lines are
  not redacted, so moving the line is enough (`PromptExamples.MovedSecretExample`).
  `PromptExact.SentAsItIsIff` says exactly which texts are sent as they are.
- A path whose extension is `constructor` or `__proto__` finds an inherited property in
  the table of comment syntaxes (`CommentSpan.InheritedExample`), and the scan of a
  non-empty line throws (`CommentSpan.IsInsideComment` says exactly when).

## Model

| member | source | states |
|---|---|---|
| `DiffParser.ParsePatch` | src/queue/diff/diff-parser.ts:29-88 | the parsing loop computes the hunks that feeding the classified lines one by one gives |
| `DiffParser.ParseGivesWellNumberedHunks` | src/queue/diff/diff-parser.ts:51-82 | whatever the text, each line of each hunk carries the old and new numbers the lines before it leave it |
| `DiffParser.PrintParseRoundTrip` | src/queue/diff/diff-parser.ts:29-88 | parsing the printed form of any well-numbered hunk list gives that list back |
| `DiffParser.TrailingNewlineAddsOneLine` | src/queue/diff/diff-parser.ts:73-82 | one more newline at the end adds exactly one empty context line to the last hunk |
| `DiffParser.MarkersAreSkipped` | src/queue/diff/diff-parser.ts:48-52 | a marker line such as "\ No newline at end of file" changes nothing |
| `DiffParser.ReadDecimal` | src/queue/diff/diff-parser.ts:21-21 | reading the decimal form of a number gives the number |
| `LineMapping.MapOldLine` | src/queue/lifecycle/line-mapping.ts:7-27 | the loop with its running offset computes the map the lemmas are about |
| `LineMapping.MapLineThroughHunks` | src/queue/lifecycle/line-mapping.ts:32-48 | the loop maps the range to the lowest and highest image, or gives up when a line is lost |
| `LineMapping.MappingRefinesApply` | src/queue/lifecycle/line-mapping.ts:7-27 | for every file and every patch that fits it, a line maps to nothing exactly when the patch deletes it, and otherwise to the line of the patched file that is its copy, with the same text |
| `LineMapping.EveryCopyIsMapped` | src/queue/lifecycle/line-mapping.ts:7-27 | conversely, every copied line of the patched file is where its old line maps to |
| `LineMapping.MappingIncreases` | src/queue/lifecycle/line-mapping.ts:7-27 | the map is strictly increasing |
| `LineMapping.RangeGoesThrough` | src/queue/lifecycle/line-mapping.ts:32-48 | a range goes through exactly when no line of it is deleted; it never gets shorter and holds the image of each line |
| `LineMapping.PhantomIsHarmless` | src/queue/lifecycle/line-mapping.ts:10-27 | the extra empty line a trailing newline adds changes no mapping when the header's count is right |
| `LineMapping.TrailingNewlineMapsTheSame` | src/queue/lifecycle/line-mapping.ts:10-27 | parsed from text, with or without a trailing newline, every old line maps the same |
| `CarryForward.CarryAll` | src/queue/lifecycle/carry-forward.ts:28-90 | the two lists are the findings the last claim on their path keeps and those it closes, in order |
| `CarryForward.CarryPartitions` | src/queue/lifecycle/carry-forward.ts:42-90 | every finding is persisted or resolved, exactly once |
| `CarryForward.CarryIsFaithfulIff` | src/queue/lifecycle/carry-forward.ts:28-90 | for every push, files without a patch included, and every finding: carrying closes it exactly when its file was removed or a line in its range deleted or replaced, and otherwise follows each line in order with unchanged text under the new path, if and only if no added file takes over the path and, where the file has no patch, the lines have not changed |
| `CarryForward.UnseenKeepsPlace` | src/queue/lifecycle/carry-forward.ts:42-90 | a finding in a file without a patch keeps its lines under the new path, which is right exactly when these have not changed |
| `CarryForward.TakeoverExample` | src/queue/lifecycle/carry-forward.ts:32-40 | the last-write-wins table does mislead for a rename followed by an added file |
| `CarryForward.DistinctMeansNoTakeover` | src/queue/lifecycle/carry-forward.ts:32-40 | distinct old paths rule that out |
| `CarryForward.ChainIsFaithful` | src/queue/lifecycle/carry-forward.ts:28-90 | over any chain of pushes that each meet that condition for the finding, one still carried covers every line it covered at first, with unchanged text, in order and under the path its file was renamed to, and it is closed exactly when some push removed its file or a line in its range |
| `CarryForward.DistinctAndSeenIsSafe` | src/queue/lifecycle/carry-forward.ts:28-90 | chains of pushes with distinct old paths and patches for all files that remain meet it for every finding |
| `JaroWinkler.GreedyIsMaximum` | src/common/text/jaro-winkler.ts:23-39 | no matching of equal characters within the window is larger than the greedy one |
| `JaroWinkler.MatchCountIsSymmetric` | src/common/text/jaro-winkler.ts:23-39 | the match count does not depend on the order of the two strings |
| `JaroWinkler.OneMarkPerPair` | src/common/text/jaro-winkler.ts:27-39 | both arrays of marks hold one mark for each pair |
| `JaroWinkler.MatchWithin` | src/common/text/jaro-winkler.ts:27-39 | the marking loops set exactly the marks of the greedy matching and count its pairs |
| `JaroWinkler.NextMark` | src/common/text/jaro-winkler.ts:47-53 | the transposition pointer stops at a mark inside the string |
| `JaroWinkler.CountTranspositions` | src/common/text/jaro-winkler.ts:44-58 | the loop counts the places where the two matched strings differ |
| `JaroWinkler.ComputeJaro` | src/common/text/jaro-winkler.ts:16-65 | the score is that of the greedy matching |
| `JaroWinkler.ComputeJaroWinkler` | src/common/text/jaro-winkler.ts:70-80 | the score with the bonus of the shared prefix |
| `JaroWinkler.ScoreBounds` | src/common/text/jaro-winkler.ts:16-80 | 0 <= jaro <= jaroWinkler <= 1 for all strings, and either is 1 exactly for equal strings |
| `StatusMatcher.IsSameFinding` | src/queue/lifecycle/status-matcher.ts:37-53 | same fingerprint, or same source, file and category within five lines and similar titles |
| `StatusMatcher.FindReopened` | src/queue/lifecycle/status-matcher.ts:55-66 | the first exact match, else the first that is the same finding, else none |
| `StatusMatcher.AssignNewOrReopened` | src/queue/lifecycle/status-matcher.ts:68-84 | each candidate in turn takes what it re-opens out of the pool |
| `StatusMatcher.ReopeningConserves` | src/queue/lifecycle/status-matcher.ts:68-84 | what is re-opened and what is left make up the pool: no resolved finding re-opens two candidates |
| `StatusMatcher.ReopeningIsGreedy` | src/queue/lifecycle/status-matcher.ts:55-84 | a candidate re-opens an exact match when one is left, otherwise a similar one, and is new only when nothing left is the same finding |
| `StatusMatcher.MatchFullAgainstBase` | src/queue/lifecycle/status-matcher.ts:86-111 | the queues in a map compute the pairs, the fresh candidates and the resolved base findings |
| `StatusMatcher.MatchingPerFingerprint` | src/queue/lifecycle/status-matcher.ts:86-111 | of c candidates and b base findings with one fingerprint the first min(c, b) are paired in step, the later candidates are fresh, the later base findings resolved |
| `StatusMatcher.CandidatesPartition` | src/queue/lifecycle/status-matcher.ts:97-106 | every candidate is paired or fresh, exactly once |
| `StatusMatcher.BasePartition` | src/queue/lifecycle/status-matcher.ts:90-110 | every base finding is paired or resolved, exactly once |
| `StatusMatcher.FreshAndUnmatchedAreApart` | src/queue/lifecycle/status-matcher.ts:86-111 | no fingerprint is both fresh and resolved |
| `PlanFindings.PlanStep` | src/queue/lifecycle/plan-findings.ts:179-242 | the rows are those of the plan, and `newFingerprints` lists exactly the NEW rows in order |
| `PlanFindings.CarryStep` | src/queue/lifecycle/plan-findings.ts:184-203 | carried base findings become PERSISTED or RESOLVED rows, and candidates already persisted are dropped |
| `PlanFindings.MatchStep` | src/queue/lifecycle/plan-findings.ts:205-221 | matched base findings become PERSISTED or RESOLVED rows |
| `PlanProperties.PlanConservesBase` | src/queue/lifecycle/plan-findings.ts:184-221 | the origins of the PERSISTED and RESOLVED rows are the carried and matched base findings, each as often as it came in |
| `PlanProperties.ExactlyOneContinues` | src/queue/lifecycle/plan-findings.ts:184-221 | each base finding is continued by exactly one row |
| `PlanContents.PlanSays` | src/queue/lifecycle/plan-findings.ts:179-242 | the PERSISTED rows say what the carried base findings and the paired candidates say, the NEW and REOPENED rows what the candidates left over say, in order |
| `PlanContents.PlanConservesCandidates` | src/queue/lifecycle/plan-findings.ts:179-242 | the PERSISTED, NEW and REOPENED rows, with what is dropped, say what the carried base findings and the candidates say, each as often as it came in: no candidate is lost, and none is written twice |
| `PlanProperties.DroppedExactlyWhenPersisted` | src/queue/lifecycle/plan-findings.ts:199-225 | what is dropped was already persisted, and nothing already persisted is written anew |
| `PlanRows.PlanRowOk` | src/queue/lifecycle/plan-findings.ts:78-139 | every row continues a base finding, re-opens a resolved row of this scan or of the window, or is NEW with no origin; `firstSeen` is that of its origin or this scan |
| `PlanRows.PlanIds` | src/queue/lifecycle/plan-findings.ts:78-139 | rows get fresh ids, one after the other |
| `PlanRows.PlanLiveDistinct` | src/queue/lifecycle/plan-findings.ts:179-242 | with distinct fingerprints carried in and distinct candidates, the rows that are not RESOLVED have distinct fingerprints |
| `History.ReachableProvenance` | src/queue/scan.processor.ts:268-315 | in every reachable history each row is NEW in its own scan, or its origin is an earlier row, or a RESOLVED row of its own scan that it re-opens, with the same `firstSeen` |
| `History.OriginGoesDown` | src/queue/lifecycle/plan-findings.ts:78-139 | following an origin goes down in the order of scans, and within a scan from REOPENED to RESOLVED |
| `History.ChainEndsAtNew` | src/queue/lifecycle/plan-findings.ts:78-139 | from any row of any reachable history the origins lead to a NEW row, and every row on the way was first seen in its scan |
| `History.ChainsAreShort` | src/queue/lifecycle/plan-findings.ts:78-139 | no chain of origins is longer than its measure, so none is circular |
| `History.NeverCountsTwice` | src/queue/scan.processor.ts:283-315 | over every history of full and incremental steps, the rows of each scan that are not RESOLVED have pairwise distinct fingerprints |
| `CarriedHistory.ReachableIsMade` | src/queue/scan.processor.ts:229-315 | every reachable history was made by steps, one for each scan, so what follows is about all of them |
| `CarriedHistory.ContinuedIsCarried` | src/queue/lifecycle/plan-findings.ts:184-203 | in every history a row that continues one its incremental step takes over is that row put where the diff carries it, PERSISTED if it is anywhere and RESOLVED if not, whatever else the step matches by fingerprint |
| `CarriedHistory.IsContinued` | src/queue/scan.processor.ts:283-315 | every live row an incremental step takes over is continued by a row of its scan |
| `CarriedHistory.PersistedCovers` | src/queue/lifecycle/carry-forward.ts:28-90 | in every history, over any number of incremental scans, a row still PERSISTED covers the lines its finding was first reported for: unchanged, in order, in the file the first one was renamed to; what it says is otherwise what the first row said |
| `CarriedHistory.ClosedExactlyWhenLost` | src/queue/lifecycle/carry-forward.ts:28-90 | in every history the row that continues it is RESOLVED exactly when its file was removed or a line in its range deleted or replaced between the two commits |
| `CarriedHistory.DistinctAndSeenPathIsSafe` | src/queue/lifecycle/carry-forward.ts:32-40 | distinct old paths and patches for all files that remain are enough for that |
| `HistoryCounts.EveryScanIsWellKept` | src/queue/lifecycle/status-matcher.ts:68-84 | in every reachable history no two REOPENED rows of a scan re-open the same finding |
| `HistoryCounts.CountsAreRight` | src/queue/lifecycle/scan-counts.ts:34-83 | for every scan of every history whose re-opened rows agree with their origins on suppression the clamp is never needed and each of the eight counts is the number of rows it is for |
| `HistoryCounts.ResolvedCountRightIffBalanced` | src/queue/lifecycle/scan-counts.ts:43-83 | for every scan of every history the stored `resolvedCount` is the number of unsuppressed RESOLVED rows not re-opened in the scan if and only if re-openings across suppression balance as stated |
| `ScanCounts.RecomputeScanCounts` | src/queue/lifecycle/scan-counts.ts:34-83 | the loop over the groups sums each count, less the re-openings, clamped at zero |
| `ScanCounts.TallyCountsRows` | src/queue/lifecycle/scan-counts.ts:36-78 | from the groups in any order each count is the number of unsuppressed rows it names, the three status counts one by one and together |
| `ScanCounts.AgreementMakesCountsRight` | src/queue/lifecycle/scan-counts.ts:47-83 | it is, without the clamp, when re-opened rows and their origins agree on suppression |
| `MiscountedHistory.MiscountIsReachable` | src/queue/lifecycle/scan-counts.ts:43-83 | for any finding set aside, any other finding, and the first one found again under a fingerprint of its own, two scans are reached of which the second stores a count of none while one resolution is still open |
| `ScanStore.Tables.ClaimScan` | src/queue/scan.processor.ts:118-128 | QUEUED or RUNNING becomes RUNNING and counts one; anything else stays; the table invariant holds on |
| `ScanStore.Tables.CommitScan` | src/queue/scan.processor.ts:335-378 | only a scan still RUNNING becomes DONE, has then exactly these rows, and moves `latestScanId`; the invariant holds on and every scan only moves forward |
| `ScanStore.Tables.FailScan` | src/queue/scan.processor.ts:509-531 | only a scan in flight becomes FAILED and moves `latestScanId`; afterwards it is not in flight, and no result has changed |
| `ScanStore.Tables.ListInFlight` | src/queue/scan-queue.service.ts:377-386 | exactly the scans in flight |
| `ScanStore.Tables.SupersedeScans` | src/queue/scan-queue.service.ts:403-409 | afterwards none of the listed scans is in flight, while every other scan, every result and `latestScanId` are as they were, and the invariant holds on |
| `ScanStore.Tables.CreateScan` | src/queue/scan-queue.service.ts:279-320 | a new QUEUED scan, refused exactly when that attempt of that sha is there already; the invariant, with the unique constraint, holds on |
| `ScanStore.Tables.FailUnqueuedScan` | src/queue/scan-queue.service.ts:346-353 | the invariant holds on and scans only move forward if and only if the scan was not DONE; no result changes |
| `ScanQueue.FindLatest` | src/queue/scan-queue.service.ts:181-194 | the scan of the sha with the highest attempt, if there is one |
| `ScanQueue.CancelPending` | src/queue/scan-queue.service.ts:376-417 | afterwards no scan is in flight, and no waiting job of a superseded one is left in the queue |
| `ScanQueue.EnqueueScan` | src/queue/scan-queue.service.ts:180-360 | undisturbed: a webhook for a sha whose latest scan stands changes nothing and names it; any other request ends with its scan the only one in flight, or, when the queue refuses the job, FAILED and none in flight |
| `ScanQueue.Process` | src/queue/scan.processor.ts:100-378 | undisturbed: a scan not in flight is skipped, a crashed one stays RUNNING for the retry, any other is committed once |
| `ScanStore.FailUnqueuedKeepsIff` | src/queue/scan-queue.service.ts:341-353 | that write keeps the table invariants, and moves every scan forward, exactly when the scan is not DONE |
| `ScanProtocol.NextKeepsInv` | src/queue/scan-queue.service.ts:180-417 | every step of a worker or of an enqueue keeps the invariant of tables, queue and workers |
| `ScanProtocol.ExactlyOneCommit` | src/queue/scan.processor.ts:335-378 | in every interleaving a scan has static rows only if it is DONE, and then from exactly one commit |
| `ScanProtocol.StatusOnlyMovesForward` | src/queue/scan.processor.ts:118-128 | a scan out of QUEUED and RUNNING never returns there nor becomes DONE later; DONE and FAILED are never left; committed rows stay |
| `ScanProtocol.LatestIsSettled` | src/queue/scan.processor.ts:373-376 | `latestScanId` only ever names a DONE or FAILED scan |
| `ScanProtocol.CommitSeesWhatWasRead` | src/queue/scan.processor.ts:229-378 | in every interleaving the scans that were DONE when a worker read after its claim, and their rows, are those that are when its commit succeeds |
| `ScanProtocol.OneScanInFlight` | src/queue/scan-queue.service.ts:376-417 | at most one scan of the pull request is QUEUED or RUNNING in every reachable state |
| `ScanProtocol.RunAttemptsAreConsecutive` | src/queue/scan-queue.service.ts:181-238 | in every reachable state below any attempt of a sha there is each lower one from 1, and each attempt is there once |
| `ScanProtocol.EarlierAttemptsAreOver` | src/queue/scan-queue.service.ts:208-224 | in webhook-only runs every attempt but the last of its sha is FAILED, SUPERSEDED, or DONE under another ruleset or tier set than the next attempt of that sha has |
| `ScanProtocol.RequestNeverConflicts` | src/queue/scan-queue.service.ts:296-320 | in every reachable state the attempt an enqueue has decided on is free and is the next one of its sha: with enqueues serialised the unique constraint is never violated |
| `ScanProtocol.LeftoverJobLosesDone` | src/queue/scan-queue.service.ts:334-353 | a run in which a failed add did leave a job ends with a DONE scan turned FAILED |
| `DedupeFindings.GroupHits` | src/queue/dedupe-findings.ts:64-112 | the loop keeps one group per fingerprint, in order of first appearance |
| `DedupeFindings.DedupeFindings` | src/queue/dedupe-findings.ts:49-141 | the result is one prepared finding for each fingerprint |
| `DedupeFindings.OneFindingPerFingerprint` | src/queue/dedupe-findings.ts:64-141 | no fingerprint is lost, none is listed twice, and each finding is exact: active exactly when some hit is, its range the tight hull of the hits of the winning kind, its message their number, the rest that of the first of them |
| `DedupeFindings.HitOrderDoesNotMatter` | src/queue/dedupe-findings.ts:64-141 | fingerprint, active or not, range and count are the same for any order of the hits |
| `DedupeFindings.MaskedSecretsStayApart` | src/queue/dedupe-findings.ts:65-73 | secrets without an identity share a fingerprint exactly when neither has an identity and they are on the same line |
| `DedupeFindings.CandidatesAreDistinct` | src/queue/analyze-diff.ts:190-201 | the sorted and capped lists that go on as candidates have pairwise distinct fingerprints |
| `AiDeduper.DoesMatch` | src/modules/ai/scan/ai-deduper.ts:101-108 | same fingerprint, or same file and category, a similar title and a merged range within 40 |
| `AiDeduper.MergeAiFindings` | src/modules/ai/scan/ai-deduper.ts:87-121 | folding in place gives the entries of the merge, and every finding is kept or counted as folded |
| `AiDeduper.MergeIsExact` | src/modules/ai/scan/ai-deduper.ts:87-121 | no finding is lost or invented; kept findings have distinct fingerprints; each folded finding is no more confident than the one it went into, and has its fingerprint or is on its topic within its range |
| `AiDeduper.MergedRangesStayShort` | src/modules/ai/scan/ai-deduper.ts:98-117 | no range grows past 40 when none was longer |
| `AiDeduper.AlikeAreNotBothKept` | src/modules/ai/scan/ai-deduper.ts:73-104 | of findings with the same file, category and normalised title one is kept |
| `AiDeduper.DedupeAiFindings` | src/modules/ai/scan/ai-deduper.ts:165-194 | the merged findings are split into kept and duplicates, and inputs = kept + duplicates + folded |
| `AiDeduper.SplitIsExact` | src/modules/ai/scan/ai-deduper.ts:123-194 | a duplicate overlaps the first active static finding it names; what is kept overlaps none, and is suppressed as the first suppressed one it overlaps, or as the ordinary rules say |
| `AiDeduper.KeptAreApart` | src/modules/ai/scan/ai-deduper.ts:165-194 | no two stored findings share a fingerprint |
| `CommentSpan.TableIsWellFormed` | src/queue/rules/comment-span.ts:33-81 | every syntax of the table has markers the scan can advance over |
| `CommentSpan.BuildTable` | src/queue/rules/comment-span.ts:73-92 | the registrations give the table in which the last one of an extension counts |
| `CommentSpan.InheritedExample` | src/queue/rules/comment-span.ts:94-106 | for any file with the extension "constructor" the look-up finds what is no syntax |
| `CommentSpan.FindCommentSpans` | src/queue/rules/comment-span.ts:118-201 | the jumping loop computes the spans the lemmas are about |
| `CommentSpan.SpansAreTheComments` | src/queue/rules/comment-span.ts:118-201 | for every line, syntax and column the spans cover the column exactly when the one-character lexer reads it in a comment |
| `CommentSpan.SpansAreTidy` | src/queue/rules/comment-span.ts:116-201 | the spans are non-empty, in order, disjoint and inside the line |
| `CommentSpan.CommentSpanStart` | src/queue/rules/comment-span.ts:203-210 | a start is returned exactly when the last column is in a comment, and from it on every column is |
| `CommentSpan.IsInsideComment` | src/queue/rules/comment-span.ts:94-225 | for every path: yes exactly when its syntax is known and the lexer is in a comment at that column; it throws exactly when the look-up finds an inherited property and the line is not empty |
| `RegexLiteral.ReadString` | src/queue/rules/regex-literal.ts:73-87 | the loop finds the end of the string and walks no further |
| `RegexLiteral.StringEndIsFirst` | src/queue/rules/regex-literal.ts:73-87 | that end is just past the first quote no backslash escapes, or the end of the line |
| `RegexLiteral.ReadJsRegexLiteral` | src/queue/rules/regex-literal.ts:97-120 | the loop finds the end of the literal and walks no further; a failing read walks at most the rest of the line |
| `RegexLiteral.RegexEndIsFirst` | src/queue/rules/regex-literal.ts:97-120 | that end is past the first slash neither escaped nor in a class and its flags; -1 exactly when there is none |
| `RegexLiteral.ReadJsRegexOnce` | src/queue/rules/regex-literal.ts:147-156 | after one failing read no other is tried |
| `RegexLiteral.LiteralAt` | src/queue/rules/regex-literal.ts:166-191 | the literal after an opener, or none, at the price of what it covers or of one failing read |
| `RegexOpeners.OpenersAreAnchored` | src/queue/rules/regex-literal.ts:22-62 | no probe of any language matches the empty text or leaves the line, so the scan always moves on |
| `RegexLiteral.FindRegexLiteralSpans` | src/queue/rules/regex-literal.ts:193-287 | terminates with non-empty, ordered, disjoint spans inside the line, and the characters walked inside strings and literals are at most twice the line |
| `RegexLiteral.ScanIsTidy` | src/queue/rules/regex-literal.ts:193-287 | whatever the flag and the state it starts from |
| `RegexLiteral.IsInsideRegexLiteral` | src/queue/rules/regex-literal.ts:289-299 | yes exactly when one span holds the whole match |
| `RegexGivingUp.SameTurnsIff` | src/queue/rules/regex-literal.ts:147-156 | from any column and state the scan takes the same turns as one that tries every read, if and only if no read is declined that would have closed |
| `RegexGivingUp.GivingUpMattersIff` | src/queue/rules/regex-literal.ts:91-96 | so for the whole line, and then the spans are the same |
| `RegexGivingUp.InventsOnlyPastDeclined` | src/queue/rules/regex-literal.ts:91-96 | a span is invented, or missed, only where it starts at or past the first read so declined |
| `RegexGivingUp.GivingUpIsHarmless` | src/queue/rules/regex-literal.ts:91-96 | on a line where after one failing read all later ones fail, none is so declined and no span changes |
| `RegexGivingUp.GivingUpInvents` | src/queue/rules/regex-literal.ts:91-96 | on one line, with the probes as they are, the scan finds a literal where the one that tries every read finds none |
| `Sorting.SortIsStable` | src/modules/ai/scan/ai-prompt-builder.ts:317-320 | sorting keeps elements that tie in the order they had |
| `RangeMerge.MergeRanges` | src/modules/ai/scan/ai-prompt-builder.ts:231-239 | the loop computes the merged windows |
| `RangeMerge.MergeIsExact` | src/modules/ai/scan/ai-prompt-builder.ts:231-239 | merged windows are in order, at least one line apart, and cover exactly what the ranges cover |
| `PromptRender.CollectHunks` | src/modules/ai/scan/ai-prompt-builder.ts:182-217 | the loops collect added lines, texts, deleted lines and ranges hunk by hunk |
| `PromptRender.RenderFile` | src/modules/ai/scan/ai-prompt-builder.ts:172-269 | the printed lines and the record of them are those of the merged windows; no hunk, nothing |
| `PromptExact.HunksAdd` | src/modules/ai/scan/ai-prompt-builder.ts:190-208 | the added lines are exactly those some hunk adds |
| `PromptExact.HunksHaveText` | src/modules/ai/scan/ai-prompt-builder.ts:190-208 | a text is that of a line of a hunk with that number |
| `PromptExact.RangesAreTheLines` | src/modules/ai/scan/ai-prompt-builder.ts:186-217 | the ranges cover exactly the lines the hunks have the text of |
| `PromptExact.WindowsAreExact` | src/modules/ai/scan/ai-prompt-builder.ts:219-239 | the windows are apart and hold exactly the lines within the context of a hunk and inside the file |
| `PromptExact.PrintsLinesNearHunks` | src/modules/ai/scan/ai-prompt-builder.ts:241-259 | printed line numbers strictly increase and are exactly those of the windows |
| `PromptExact.PrintsWhatItRecords` | src/modules/ai/scan/ai-prompt-builder.ts:252-257 | a printed line a secret rule flagged shows only the redaction, every other its own text, added lines are marked, and `lines` records exactly what is printed |
| `PromptExact.SentAsItIsIff` | src/modules/ai/scan/ai-prompt-builder.ts:166-262 | a text is printed as it is if and only if an unflagged line of the windows has it, or a deleted line printed before such a line or at the end |
| `PromptExact.AddedLinesArePrinted` | src/modules/ai/scan/ai-prompt-builder.ts:219-259 | an added line is printed, once, exactly when there is no head file or it has that line |
| `PromptExamples.ShortHeadExample` | src/modules/ai/scan/ai-prompt-builder.ts:219-229 | with an empty head file an added line is not printed |
| `PromptExamples.MovedSecretExample` | src/modules/ai/scan/ai-prompt-builder.ts:170-171 | of any line that was moved and is flagged where it is now, the text is sent as the deleted line |
| `PromptBudget.SecretLinesByFile` | src/modules/ai/scan/ai-prompt-builder.ts:141-156 | a line is listed for a file exactly when a secret finding of the file covers it |
| `PromptBudget.TokensRoundUp` | src/modules/ai/scan/ai-prompt-builder.ts:129-131 | the estimate is the length over 3.5, rounded up |
| `PromptBudget.SelectFiles` | src/modules/ai/scan/ai-prompt-builder.ts:297-307 | files without a patch or ignored are left out, private ones listed as not sent, the others candidates |
| `PromptBudget.OrderIsStable` | src/modules/ai/scan/ai-prompt-builder.ts:309-320 | candidates go by rank, then size, ties in the order they came |
| `PromptBudget.FitToBudget` | src/modules/ai/scan/ai-prompt-builder.ts:381-394 | the kept files are a prefix of the order, the omitted ones the rest, and no longer prefix fits |
| `PromptBudget.KeptIsTheLongestPrefix` | src/modules/ai/scan/ai-prompt-builder.ts:381-394 | a prefix fits exactly when it is no longer than what is kept |
| `PromptBudget.ChooseFiles` | src/modules/ai/scan/ai-prompt-builder.ts:291-439 | from files and findings to what is sent and what `filesOmitted` lists |
| `PromptBudget.NoSecretIsSent` | src/modules/ai/scan/ai-prompt-builder.ts:252-257 | in what is printed of every file, and in what is recorded of it, a line a secret rule flagged shows only the redaction |

## Left out

- Provider clients, webhooks, mail, server-sent events, Redis plumbing, modules, controllers and data transfer objects: I/O over libraries that are not visible.
- The AI step's persistence, its regenerate-merge and its result validation, and the syntax check: only the static step's commits are modelled. Syntax hits enter `History.Step` as further candidates, under the hypothesis that the candidates of one scan have distinct fingerprints.
- Rule definitions, path globs, entropy, secret shapes and language detection: tables and library calls. Path rules and the ordinary suppression rules are parameters.
- `normalizeTitle`, in both files that have one, and the lower-casing of a path: parameters, as they depend on Unicode.
- sha1: a finding's fingerprint is `digest` of the text the source hashes, for any function `digest`; where two fingerprints have to differ the statement is about that text.
- Ids, times and timeouts: ids count up, a timeout is a worker that throws or vanishes.
- Floating point: Jaro-Winkler scores are reals, and so is the confidence of a finding.
- UTF-16: a string is a sequence of code units; nothing depends on surrogates. `Number()` of more digits than a double holds is read exactly.
- Two enqueues of one pull request interleaved with each other: the code does not protect them from each other, so the protocol has one enqueue at a time, interleaved with workers and with cancellations from elsewhere.
- `process` and `enqueue` disturbed by others, as methods: between any two of their awaits other workers run, so there they are the steps of `ScanProtocol`, where each statement or transaction is a step. `ScanQueue` has them as methods with nobody in between.
- A job's state "prioritized": not told apart from "waiting". A worker picks up either, a cancellation removes both, and no job is added with a priority.
- PromptExact.SentAsItIsIff: it speaks of the whole text of a printed line. A flagged text that is also part of some longer line leaves with that line, and the rendering does not look for it.
- The content of a file that comes without a patch: whether its lines have changed is a condition on the two trees, as nothing in the push says it.
- `decideScanMode`: the mode of a step is free, so the histories hold for every decision.
- The order in which the database returns rows: the queries of `lifecycle-context.ts` return the rows they name in any order.
- Records updated in place inside a local map or list (the groups of `dedupeFindings`, the kept AI findings) are values in a map or sequence that the methods reassign: aliasing between two groups is not modelled.
- `isRegexLiteralLine`: a sum over the spans and a quotient.
- The work bound of `FindRegexLiteralSpans` counts the characters walked by `readString` and `readJsRegexLiteral`; the probes are library calls.
- A bound on the final prompt: notices are added after the budget loop, so only the loop's own result is stated. The header, the system text and the reminder enter `ChooseFiles` as their length.
- `dominantLanguage`, the lists of already reported and of resolved or persisted findings in the prompt, dashboard, search, settings, members and merge blocking: they would add only easy members.
