/**
 * AI findings folded into one another, then set against the static findings of the
 * same scan: src/modules/ai/scan/ai-deduper.ts.
 */
module AiDeduper {
  import opened Seqs
  import opened Sorting
  import Findings
  import JaroWinkler

  const LINE_SLACK := 2
  const SIMILAR_TITLE := 0.85
  const MAX_MERGED_RANGE := 40

  datatype AiDraft = AiDraft(
    filePath: string,
    lineStart: int,
    lineEnd: int,
    category: string,
    severity: Findings.Severity,
    title: string,
    message: string,
    confidence: real,
    reportedSeverity: Findings.Severity)

  datatype KeptAi = KeptAi(draft: AiDraft, fingerprint: string, suppressedReason: Option<string>)

  /** What a draft is compared by: its digest, and its title normalised. */
  datatype Names = Names(fingerprint: AiDraft -> string, title: string -> string)

  /** The digest is taken of file, category and normalised title. */
  function FingerprintOf(digest: string -> string, norm: string -> string): AiDraft -> string {
    (draft: AiDraft) => digest("ai|" + draft.filePath + "|" + draft.category + "|" + norm(draft.title))
  }

  function NamesOf(digest: string -> string, norm: string -> string): Names {
    Names(FingerprintOf(digest, norm), norm)
  }

  // ------------------------------------------------------------------ folding

  /** How long the range of `a` would be with `b` in it. */
  function Range(a: AiDraft, b: AiDraft): int {
    Max(a.lineEnd, b.lineEnd) - Min(a.lineStart, b.lineStart)
  }

  ghost predicate TitlesAlike(a: string, b: string) {
    JaroWinkler.Score(a, b) >= SIMILAR_TITLE
  }

  /** Same file, same category and a similar title. */
  ghost predicate SameTopic(names: Names, a: AiDraft, b: AiDraft) {
    a.filePath == b.filePath && a.category == b.category && TitlesAlike(names.title(a.title), names.title(b.title))
  }

  ghost predicate Matches(names: Names, kept: KeptAi, draft: AiDraft) {
    kept.fingerprint == names.fingerprint(draft) ||
    (Range(kept.draft, draft) <= MAX_MERGED_RANGE && SameTopic(names, kept.draft, draft))
  }

  method DoesMatch(names: Names, kept: KeptAi, draft: AiDraft) returns (r: bool)
    ensures r == Matches(names, kept, draft)
  {
    if kept.fingerprint == names.fingerprint(draft) {
      return true;
    }
    if kept.draft.filePath != draft.filePath || kept.draft.category != draft.category ||
       Range(kept.draft, draft) > MAX_MERGED_RANGE {
      return false;
    }
    var similarity := JaroWinkler.ComputeJaroWinkler(names.title(kept.draft.title), names.title(draft.title));
    return similarity >= SIMILAR_TITLE;
  }

  /** One kept finding and every draft that went into it, first the one it was made from. */
  datatype Entry = Entry(kept: KeptAi, members: seq<AiDraft>)

  /** The first entry at or after `i` the draft matches. */
  ghost function Into(names: Names, entries: seq<Entry>, draft: AiDraft, i: nat): (r: nat)
    requires i <= |entries|
    ensures i <= r <= |entries|
    decreases |entries| - i
  {
    if i == |entries| || Matches(names, entries[i].kept, draft) then i else Into(names, entries, draft, i + 1)
  }

  lemma {:induction false} IntoIsFirst(names: Names, entries: seq<Entry>, draft: AiDraft, i: nat)
    requires i <= |entries|
    ensures var r := Into(names, entries, draft, i);
            (r < |entries| ==> Matches(names, entries[r].kept, draft)) &&
            forall k :: i <= k < r ==> !Matches(names, entries[k].kept, draft)
    decreases |entries| - i
  {
    if i < |entries| && !Matches(names, entries[i].kept, draft) {
      IntoIsFirst(names, entries, draft, i + 1);
    }
  }

  /** The kept finding's range grows to cover the draft, unless it would grow too long. */
  function Widen(kept: KeptAi, draft: AiDraft): KeptAi {
    if Range(kept.draft, draft) <= MAX_MERGED_RANGE then
      kept.(draft := kept.draft.(lineStart := Min(kept.draft.lineStart, draft.lineStart),
                                 lineEnd := Max(kept.draft.lineEnd, draft.lineEnd)))
    else kept
  }

  function Grow(entry: Entry, draft: AiDraft): Entry {
    Entry(Widen(entry.kept, draft), entry.members + [draft])
  }

  function Lead(names: Names, draft: AiDraft): Entry {
    Entry(KeptAi(draft, names.fingerprint(draft), None), [draft])
  }

  ghost function Absorb(names: Names, entries: seq<Entry>, draft: AiDraft): seq<Entry> {
    var k := Into(names, entries, draft, 0);
    if k == |entries| then entries + [Lead(names, draft)] else entries[k := Grow(entries[k], draft)]
  }

  /** The entries after the first `n` drafts. */
  ghost function EntriesAt(names: Names, drafts: seq<AiDraft>, n: nat): seq<Entry>
    requires n <= |drafts|
    decreases n
  {
    if n == 0 then [] else Absorb(names, EntriesAt(names, drafts, n - 1), drafts[n - 1])
  }

  function KeptOf(entry: Entry): KeptAi {
    entry.kept
  }

  predicate MoreConfident(a: AiDraft, b: AiDraft) {
    a.confidence > b.confidence
  }

  function ByConfidence(drafts: seq<AiDraft>): (r: seq<AiDraft>)
    ensures |r| == |drafts|
  {
    Sort(drafts, MoreConfident)
  }

  /** Every entry of the merge of `drafts`. */
  ghost function Merge(names: Names, drafts: seq<AiDraft>): seq<Entry> {
    EntriesAt(names, ByConfidence(drafts), |drafts|)
  }

  method FindInto(names: Names, merged: seq<KeptAi>, draft: AiDraft, ghost entries: seq<Entry>) returns (k: nat)
    requires merged == MapSeq(KeptOf, entries)
    ensures k == Into(names, entries, draft, 0)
  {
    k := 0;
    while k < |merged|
      invariant k <= |merged| && Into(names, entries, draft, 0) == Into(names, entries, draft, k)
    {
      var same := DoesMatch(names, merged[k], draft);
      if same {
        return;
      }
      k := k + 1;
    }
  }

  method MergeAiFindings(names: Names, findings: seq<AiDraft>) returns (merged: seq<KeptAi>, folded: nat)
    ensures merged == MapSeq(KeptOf, Merge(names, findings))
    ensures folded + |merged| == |findings|
  {
    merged, folded := [], 0;
    var byConfidence := ByConfidence(findings);
    ghost var entries := [];
    var n := 0;
    while n < |byConfidence|
      invariant n <= |byConfidence| && entries == EntriesAt(names, byConfidence, n)
      invariant merged == MapSeq(KeptOf, entries)
      invariant folded + |merged| == n
    {
      var draft := byConfidence[n];
      var k := FindInto(names, merged, draft, entries);
      entries := Absorb(names, entries, draft);
      if k == |merged| {
        merged := merged + [KeptAi(draft, names.fingerprint(draft), None)];
      } else {
        folded := folded + 1;
        var into := merged[k];
        if Range(into.draft, draft) <= MAX_MERGED_RANGE {
          merged := merged[k := into.(draft := into.draft.(
            lineStart := Min(into.draft.lineStart, draft.lineStart),
            lineEnd := Max(into.draft.lineEnd, draft.lineEnd)))];
        }
      }
      n := n + 1;
    }
  }

  // ------------------------------------------------------------------ what an entry is

  predicate Covers(kept: AiDraft, draft: AiDraft) {
    kept.lineStart <= draft.lineStart && draft.lineEnd <= kept.lineEnd
  }

  /** A kept finding says what its first draft says, over a range that may have grown. */
  ghost predicate KeptOk(names: Names, kept: KeptAi, lead: AiDraft) {
    && kept.draft == lead.(lineStart := kept.draft.lineStart, lineEnd := kept.draft.lineEnd)
    && kept.fingerprint == names.fingerprint(lead) && kept.suppressedReason.None?
    && Covers(kept.draft, lead)
    && (Covers(lead, kept.draft) || kept.draft.lineEnd - kept.draft.lineStart <= MAX_MERGED_RANGE)
  }

  /** Why a draft is in an entry: same fingerprint, or same topic and within the range. */
  ghost predicate MemberOk(names: Names, kept: KeptAi, lead: AiDraft, draft: AiDraft) {
    && draft.confidence <= lead.confidence
    && (names.fingerprint(draft) == names.fingerprint(lead) ||
        (SameTopic(names, lead, draft) && Covers(kept.draft, draft)))
  }

  ghost predicate EntryOk(names: Names, entry: Entry) {
    && entry.members != []
    && KeptOk(names, entry.kept, entry.members[0])
    && forall k :: 0 <= k < |entry.members| ==> MemberOk(names, entry.kept, entry.members[0], entry.members[k])
  }

  ghost predicate EntriesOk(names: Names, entries: seq<Entry>) {
    forall k :: 0 <= k < |entries| ==> EntryOk(names, entries[k])
  }

  ghost predicate Apart(entries: seq<Entry>) {
    forall i, j :: 0 <= i < j < |entries| ==> entries[i].kept.fingerprint != entries[j].kept.fingerprint
  }

  lemma WidenKeeps(names: Names, kept: KeptAi, lead: AiDraft, draft: AiDraft)
    requires KeptOk(names, kept, lead)
    ensures KeptOk(names, Widen(kept, draft), lead)
    ensures Covers(Widen(kept, draft).draft, kept.draft)
  {
  }

  lemma GrowKeeps(names: Names, entry: Entry, draft: AiDraft)
    requires EntryOk(names, entry) && Matches(names, entry.kept, draft)
    requires draft.confidence <= entry.members[0].confidence
    ensures EntryOk(names, Grow(entry, draft))
  {
    var lead, kept := entry.members[0], Widen(entry.kept, draft);
    WidenKeeps(names, entry.kept, lead, draft);
    assert MemberOk(names, kept, lead, draft);
    forall k | 0 <= k < |entry.members|
      ensures MemberOk(names, kept, lead, entry.members[k])
    {
      assert MemberOk(names, entry.kept, lead, entry.members[k]);
    }
  }

  lemma LeadIsOk(names: Names, draft: AiDraft)
    ensures EntryOk(names, Lead(names, draft))
  {
  }

  ghost predicate NotBelow(entries: seq<Entry>, draft: AiDraft) {
    forall k :: 0 <= k < |entries| && entries[k].members != [] ==>
                  draft.confidence <= entries[k].members[0].confidence
  }

  lemma AbsorbKeeps(names: Names, entries: seq<Entry>, draft: AiDraft)
    requires EntriesOk(names, entries) && NotBelow(entries, draft)
    ensures EntriesOk(names, Absorb(names, entries, draft))
  {
    IntoIsFirst(names, entries, draft, 0);
    var k := Into(names, entries, draft, 0);
    if k < |entries| {
      GrowKeeps(names, entries[k], draft);
    } else {
      LeadIsOk(names, draft);
    }
  }

  lemma AbsorbKeepsApart(names: Names, entries: seq<Entry>, draft: AiDraft)
    requires Apart(entries)
    ensures Apart(Absorb(names, entries, draft))
  {
    IntoIsFirst(names, entries, draft, 0);
    assert forall k :: 0 <= k < Into(names, entries, draft, 0) ==> !Matches(names, entries[k].kept, draft);
  }

  lemma {:induction false} EntriesAreOk(names: Names, drafts: seq<AiDraft>, n: nat)
    requires n <= |drafts| && Sorted(drafts, MoreConfident)
    ensures EntriesOk(names, EntriesAt(names, drafts, n)) && Apart(EntriesAt(names, drafts, n))
    ensures forall m :: n <= m < |drafts| ==> NotBelow(EntriesAt(names, drafts, n), drafts[m])
    decreases n
  {
    if n > 0 {
      EntriesAreOk(names, drafts, n - 1);
      var entries, draft := EntriesAt(names, drafts, n - 1), drafts[n - 1];
      AbsorbKeeps(names, entries, draft);
      AbsorbKeepsApart(names, entries, draft);
      forall m | n <= m < |drafts|
        ensures NotBelow(EntriesAt(names, drafts, n), drafts[m])
      {
        assert !MoreConfident(drafts[m], draft);
        AbsorbKeepsLeads(names, entries, draft, drafts[m]);
      }
    }
  }

  lemma AbsorbKeepsLeads(names: Names, entries: seq<Entry>, draft: AiDraft, later: AiDraft)
    requires EntriesOk(names, entries) && NotBelow(entries, later) && later.confidence <= draft.confidence
    ensures NotBelow(Absorb(names, entries, draft), later)
  {
  }

  /** All drafts of the first `n` entries. */
  function Flatten(entries: seq<Entry>, n: nat): seq<AiDraft>
    requires n <= |entries|
    decreases n
  {
    if n == 0 then [] else Flatten(entries, n - 1) + entries[n - 1].members
  }

  lemma {:induction false} FlattenPrefix(entries: seq<Entry>, other: seq<Entry>, n: nat)
    requires n <= |entries| && n <= |other| && entries[..n] == other[..n]
    ensures Flatten(entries, n) == Flatten(other, n)
    decreases n
  {
    if n > 0 {
      assert entries[..n - 1] == entries[..n][..n - 1] == other[..n][..n - 1] == other[..n - 1];
      assert entries[n - 1] == entries[..n][n - 1] == other[..n][n - 1] == other[n - 1];
      FlattenPrefix(entries, other, n - 1);
    }
  }

  lemma {:induction false} FlattenGrown(entries: seq<Entry>, k: nat, draft: AiDraft, n: nat)
    requires k < n <= |entries|
    ensures multiset(Flatten(entries[k := Grow(entries[k], draft)], n)) ==
            multiset(Flatten(entries, n)) + multiset{draft}
    decreases n
  {
    var grown := entries[k := Grow(entries[k], draft)];
    if k == n - 1 {
      FlattenPrefix(entries, grown, n - 1);
    } else {
      FlattenGrown(entries, k, draft, n - 1);
    }
  }

  ghost predicate Holds(entries: seq<Entry>, drafts: seq<AiDraft>) {
    SameElements(Flatten(entries, |entries|), drafts)
  }

  lemma AbsorbHolds(names: Names, entries: seq<Entry>, drafts: seq<AiDraft>, draft: AiDraft)
    requires Holds(entries, drafts)
    ensures Holds(Absorb(names, entries, draft), drafts + [draft])
  {
    var k := Into(names, entries, draft, 0);
    hide Into, Matches, Widen;
    if k < |entries| {
      FlattenGrown(entries, k, draft, |entries|);
    } else {
      FlattenPrefix(entries, entries + [Lead(names, draft)], |entries|);
    }
  }

  lemma NextIsHeld(names: Names, drafts: seq<AiDraft>, n: nat)
    requires n < |drafts|
    ensures Holds(EntriesAt(names, drafts, n), drafts[..n]) ==> Holds(EntriesAt(names, drafts, n + 1), drafts[..n + 1])
  {
    hide Holds, Absorb;
    if Holds(EntriesAt(names, drafts, n), drafts[..n]) {
      AbsorbHolds(names, EntriesAt(names, drafts, n), drafts[..n], drafts[n]);
      assert drafts[..n + 1] == drafts[..n] + [drafts[n]];
    }
  }

  lemma {:induction false} NoDraftIsLost(names: Names, drafts: seq<AiDraft>, n: nat)
    requires n <= |drafts|
    ensures Holds(EntriesAt(names, drafts, n), drafts[..n])
    decreases n
  {
    if n > 0 {
      NextIsHeld(names, drafts, n - 1);
      hide *;
      NoDraftIsLost(names, drafts, n - 1);
    }
  }

  /**
   * Merging loses no draft and invents none, and lets each into one entry: under the
   * fingerprint of that entry or on its topic within its range, never below its own confidence.
   */
  lemma MergeIsExact(names: Names, drafts: seq<AiDraft>)
    ensures var entries := Merge(names, drafts);
            EntriesOk(names, entries) && Apart(entries) &&
            SameElements(Flatten(entries, |entries|), drafts)
  {
    SortSorts(drafts, MoreConfident);
    SortKeepsElements(drafts, MoreConfident);
    var sorted := ByConfidence(drafts);
    EntriesAreOk(names, sorted, |drafts|);
    NoDraftIsLost(names, sorted, |drafts|);
    assert sorted[..|drafts|] == sorted;
  }

  /** Whatever the digest, drafts alike in file, category and normalised title are never both kept. */
  lemma AlikeAreNotBothKept(digest: string -> string, norm: string -> string, drafts: seq<AiDraft>, i: nat, j: nat)
    requires i < j < |Merge(NamesOf(digest, norm), drafts)|
    ensures var a := Merge(NamesOf(digest, norm), drafts)[i].kept.draft;
            var b := Merge(NamesOf(digest, norm), drafts)[j].kept.draft;
            !(a.filePath == b.filePath && a.category == b.category && norm(a.title) == norm(b.title))
  {
    var names := NamesOf(digest, norm);
    MergeIsExact(names, drafts);
    var entries := Merge(names, drafts);
    assert EntryOk(names, entries[i]) && EntryOk(names, entries[j]);
    var a, b := entries[i].members[0], entries[j].members[0];
    assert names.fingerprint(a) == digest("ai|" + a.filePath + "|" + a.category + "|" + norm(a.title));
    assert names.fingerprint(b) == digest("ai|" + b.filePath + "|" + b.category + "|" + norm(b.title));
  }

  predicate Short(draft: AiDraft) {
    draft.lineEnd - draft.lineStart <= MAX_MERGED_RANGE
  }

  lemma {:induction false} LeadIsAnInput(entries: seq<Entry>, k: nat, n: nat)
    requires k < n <= |entries| && entries[k].members != []
    ensures entries[k].members[0] in multiset(Flatten(entries, n))
    decreases n
  {
    if k < n - 1 {
      LeadIsAnInput(entries, k, n - 1);
    }
  }

  /** A merge never makes a range longer than the limit. */
  lemma MergedRangesStayShort(names: Names, drafts: seq<AiDraft>, k: nat)
    requires forall i :: 0 <= i < |drafts| ==> Short(drafts[i])
    requires k < |Merge(names, drafts)|
    ensures Short(Merge(names, drafts)[k].kept.draft)
  {
    MergeIsExact(names, drafts);
    var entries := Merge(names, drafts);
    assert EntryOk(names, entries[k]);
    LeadIsAnInput(entries, k, |entries|);
    assert entries[k].members[0] in multiset(drafts);
    assert entries[k].members[0] in drafts;
  }

  // ------------------------------------------------------------------ against the static findings

  datatype StaticFinding = StaticFinding(
    id: Findings.Id,
    filePath: string,
    lineStart: int,
    lineEnd: int,
    category: Option<string>,
    suppressedReason: Option<string>)

  predicate Overlaps(finding: KeptAi, other: StaticFinding) {
    && other.filePath == finding.draft.filePath
    && other.category == Some(finding.draft.category)
    && finding.draft.lineStart <= other.lineEnd + LINE_SLACK
    && finding.draft.lineEnd >= other.lineStart - LINE_SLACK
  }

  predicate IsActive(s: StaticFinding) {
    s.suppressedReason.None?
  }

  predicate IsSuppressed(s: StaticFinding) {
    s.suppressedReason.Some?
  }

  /** Where the first of the findings that overlaps is; their number if none does. */
  function FirstOverlap(finding: KeptAi, others: seq<StaticFinding>, i: nat): (r: nat)
    requires i <= |others|
    ensures i <= r <= |others| && (r < |others| ==> Overlaps(finding, others[r]))
    ensures forall k :: i <= k < r ==> !Overlaps(finding, others[k])
    decreases |others| - i
  {
    if i == |others| || Overlaps(finding, others[i]) then i else FirstOverlap(finding, others, i + 1)
  }

  predicate OverlapsAny(finding: KeptAi, others: seq<StaticFinding>) {
    FirstOverlap(finding, others, 0) < |others|
  }

  /** `classify` gives the reason the ordinary rules suppress a finding for, if they do. */
  datatype Statics = Statics(
    active: seq<StaticFinding>, suppressed: seq<StaticFinding>, classify: KeptAi -> Option<string>)

  function StaticsOf(findings: seq<StaticFinding>, classify: KeptAi -> Option<string>): Statics {
    Statics(Filter(findings, IsActive), Filter(findings, IsSuppressed), classify)
  }

  function SuppressionFor(finding: KeptAi, statics: Statics): Option<string> {
    var k := FirstOverlap(finding, statics.suppressed, 0);
    if k < |statics.suppressed| then statics.suppressed[k].suppressedReason else statics.classify(finding)
  }

  datatype Duplicate = Duplicate(finding: KeptAi, dedupeOfId: Findings.Id)

  datatype DedupeResult = DedupeResult(kept: seq<KeptAi>, merged: nat, duplicates: seq<Duplicate>)

  function Repeats(statics: Statics): KeptAi -> bool {
    finding => OverlapsAny(finding, statics.active)
  }

  function Stands(statics: Statics): KeptAi -> bool {
    finding => !OverlapsAny(finding, statics.active)
  }

  function AsKept(statics: Statics): KeptAi -> KeptAi {
    (finding: KeptAi) => finding.(suppressedReason := SuppressionFor(finding, statics))
  }

  function AsDuplicate(statics: Statics): KeptAi -> Duplicate {
    (finding: KeptAi) =>
      var k := FirstOverlap(finding, statics.active, 0);
      Duplicate(finding, if k < |statics.active| then statics.active[k].id else 0)
  }

  /** The merged findings that repeat an active static one, and the others. */
  function Split(merged: seq<KeptAi>, folded: nat, statics: Statics): DedupeResult {
    DedupeResult(
      MapSeq(AsKept(statics), Filter(merged, Stands(statics))),
      folded,
      MapSeq(AsDuplicate(statics), Filter(merged, Repeats(statics))))
  }

  lemma SplitSnoc(merged: seq<KeptAi>, finding: KeptAi, folded: nat, statics: Statics)
    ensures var before := Split(merged, folded, statics);
            Split(merged + [finding], folded, statics) ==
            if OverlapsAny(finding, statics.active)
            then before.(duplicates := before.duplicates + [AsDuplicate(statics)(finding)])
            else before.(kept := before.kept + [AsKept(statics)(finding)])
  {
    MapFilterSnoc(AsKept(statics), merged, finding, Stands(statics));
    MapFilterSnoc(AsDuplicate(statics), merged, finding, Repeats(statics));
    assert Stands(statics)(finding) == !OverlapsAny(finding, statics.active);
    assert Repeats(statics)(finding) == OverlapsAny(finding, statics.active);
    hide MapSeq, Filter, OverlapsAny, AsKept, AsDuplicate, Stands, Repeats;
  }

  method DedupeAiFindings(
    digest: string -> string, norm: string -> string, findings: seq<AiDraft>, staticFindings: seq<StaticFinding>,
    classify: KeptAi -> Option<string>)
    returns (result: DedupeResult)
    ensures result == Split(MapSeq(KeptOf, Merge(NamesOf(digest, norm), findings)), result.merged,
                            StaticsOf(staticFindings, classify))
    ensures |findings| == |result.kept| + |result.duplicates| + result.merged
  {
    var merged, folded := MergeAiFindings(NamesOf(digest, norm), findings);
    result := SplitDuplicates(merged, folded, StaticsOf(staticFindings, classify));
  }

  method SplitDuplicates(merged: seq<KeptAi>, folded: nat, statics: Statics) returns (result: DedupeResult)
    ensures result == Split(merged, folded, statics)
    ensures |merged| == |result.kept| + |result.duplicates|
  {
    var kept, duplicates := [], [];
    var n := 0;
    while n < |merged|
      invariant n <= |merged| && |kept| + |duplicates| == n
      invariant Split(merged[..n], folded, statics) == DedupeResult(kept, folded, duplicates)
    {
      var finding := merged[n];
      assert merged[..n + 1] == merged[..n] + [finding];
      SplitSnoc(merged[..n], finding, folded, statics);
      var k := FirstOverlap(finding, statics.active, 0);
      if k < |statics.active| {
        duplicates := duplicates + [Duplicate(finding, statics.active[k].id)];
      } else {
        kept := kept + [finding.(suppressedReason := SuppressionFor(finding, statics))];
      }
      n := n + 1;
    }
    assert merged[..n] == merged;
    result := DedupeResult(kept, folded, duplicates);
  }

  ghost predicate Repeated(d: Duplicate, active: seq<StaticFinding>) {
    exists k :: 0 <= k < |active| && Overlaps(d.finding, active[k]) && d.dedupeOfId == active[k].id &&
                forall j :: 0 <= j < k ==> !Overlaps(d.finding, active[j])
  }

  /** A duplicate overlaps the static finding it names; what is kept overlaps no active one, and
      takes its reason from the first suppressed one it overlaps. */
  lemma SplitIsExact(merged: seq<KeptAi>, folded: nat, statics: Statics)
    ensures forall k :: 0 <= k < |Split(merged, folded, statics).duplicates| ==>
                          Repeated(Split(merged, folded, statics).duplicates[k], statics.active)
    ensures forall k, j :: 0 <= k < |Split(merged, folded, statics).kept| && 0 <= j < |statics.active| ==>
                             !Overlaps(Split(merged, folded, statics).kept[k], statics.active[j])
    ensures forall k :: 0 <= k < |Split(merged, folded, statics).kept| ==>
                          ReasonOk(Split(merged, folded, statics).kept[k], merged, statics)
  {
    var repeats, stands := Filter(merged, Repeats(statics)), Filter(merged, Stands(statics));
    FilterMembers(merged, Repeats(statics));
    FilterMembers(merged, Stands(statics));
    forall k | 0 <= k < |repeats|
      ensures Repeated(AsDuplicate(statics)(repeats[k]), statics.active)
    {
      assert repeats[k] in repeats;
    }
    forall k | 0 <= k < |stands|
      ensures ReasonOk(AsKept(statics)(stands[k]), merged, statics)
      ensures forall j :: 0 <= j < |statics.active| ==> !Overlaps(AsKept(statics)(stands[k]), statics.active[j])
    {
      KeptStands(stands[k], statics);
      assert stands[k] in stands;
      var m :| 0 <= m < |merged| && merged[m] == stands[k];
      KeptHasReason(merged, m, statics);
    }
  }

  lemma KeptStands(finding: KeptAi, statics: Statics)
    ensures forall j :: 0 <= j < |statics.active| && !OverlapsAny(finding, statics.active) ==>
                          !Overlaps(AsKept(statics)(finding), statics.active[j])
  {
  }

  lemma KeptHasReason(merged: seq<KeptAi>, m: nat, statics: Statics)
    requires m < |merged|
    ensures ReasonOk(AsKept(statics)(merged[m]), merged, statics)
  {
    var finding, k := merged[m], FirstOverlap(merged[m], statics.suppressed, 0);
    assert HasReason(AsKept(statics)(finding), finding, statics, k);
  }

  ghost predicate HasReason(kept: KeptAi, finding: KeptAi, statics: Statics, k: nat) {
    && kept == finding.(suppressedReason := kept.suppressedReason) && k <= |statics.suppressed|
    && (forall j :: 0 <= j < k ==> !Overlaps(finding, statics.suppressed[j]))
    && if k < |statics.suppressed| then
         Overlaps(finding, statics.suppressed[k]) && kept.suppressedReason == statics.suppressed[k].suppressedReason
       else kept.suppressedReason == statics.classify(finding)
  }

  /** It is a merged finding, suppressed as the first suppressed static finding it overlaps, or as the rules say. */
  ghost predicate ReasonOk(kept: KeptAi, merged: seq<KeptAi>, statics: Statics) {
    exists m, k: nat :: 0 <= m < |merged| && HasReason(kept, merged[m], statics, k)
  }

  function KeptFingerprint(kept: KeptAi): string {
    kept.fingerprint
  }

  /** No two findings that are stored have the same fingerprint. */
  lemma KeptAreApart(names: Names, findings: seq<AiDraft>, folded: nat, statics: Statics)
    ensures var kept := Split(MapSeq(KeptOf, Merge(names, findings)), folded, statics).kept;
            Distinct(MapSeq(KeptFingerprint, kept))
  {
    MergeIsExact(names, findings);
    var merged := MapSeq(KeptOf, Merge(names, findings));
    ApartAreDistinct(MapSeq(KeptFingerprint, merged));
    FilterDistinct(KeptFingerprint, merged, Stands(statics), Repeats(statics));
    var stands := Filter(merged, Stands(statics));
    assert MapSeq(KeptFingerprint, MapSeq(AsKept(statics), stands)) == MapSeq(KeptFingerprint, stands);
  }
}
