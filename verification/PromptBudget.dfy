/** Which files of a scan the model is sent: the selection of src/modules/ai/scan/ai-prompt-builder.ts. */
module PromptBudget {
  import opened Seqs
  import opened Sorting
  import opened PromptRender
  import DiffParser
  import PromptExact

  // ------------------------------------------------------------------ secret lines

  datatype StaticFinding = StaticFinding(
    ruleId: string, filePath: string, lineStart: int, lineEnd: int, suppressed: bool)

  predicate FlagsSecret(f: StaticFinding, path: string, line: int) {
    "secret." <= f.ruleId && f.filePath == path && f.lineStart <= line <= f.lineEnd
  }

  ghost predicate IsSecretLine(findings: seq<StaticFinding>, path: string, line: int) {
    exists k :: 0 <= k < |findings| && FlagsSecret(findings[k], path, line)
  }

  function LinesAt(byFile: map<string, set<int>>, path: string): set<int> {
    if path in byFile then byFile[path] else {}
  }

  ghost predicate HoldsSecretLines(byFile: map<string, set<int>>, findings: seq<StaticFinding>) {
    forall path, line :: line in LinesAt(byFile, path) <==> IsSecretLine(findings, path, line)
  }

  /** For each file, the lines some secret rule flagged. */
  method SecretLinesByFile(findings: seq<StaticFinding>) returns (byFile: map<string, set<int>>)
    ensures HoldsSecretLines(byFile, findings)
  {
    byFile := map[];
    var k := 0;
    while k < |findings|
      invariant k <= |findings| && HoldsSecretLines(byFile, findings[..k])
    {
      var finding := findings[k];
      SecretLineSnoc(findings[..k], finding);
      assert findings[..k + 1] == findings[..k] + [finding];
      k := k + 1;
      if !("secret." <= finding.ruleId) {
        continue;
      }
      var lines := LinesAt(byFile, finding.filePath);
      ghost var before := lines;
      var line := finding.lineStart;
      while line <= finding.lineEnd
        invariant line == finding.lineStart || finding.lineStart <= line <= finding.lineEnd + 1
        invariant forall n :: n in lines <==> n in before || finding.lineStart <= n < line
        decreases finding.lineEnd - line
      {
        lines := lines + {line};
        line := line + 1;
      }
      byFile := byFile[finding.filePath := lines];
    }
    assert findings[..k] == findings;
  }

  lemma SecretLineSnoc(findings: seq<StaticFinding>, finding: StaticFinding)
    ensures forall path, line :: IsSecretLine(findings + [finding], path, line) <==>
                                   IsSecretLine(findings, path, line) || FlagsSecret(finding, path, line)
  {
    var all := findings + [finding];
    assert all[|findings|] == finding;
    forall path, line | IsSecretLine(findings, path, line)
      ensures IsSecretLine(all, path, line)
    {
      var k :| 0 <= k < |findings| && FlagsSecret(findings[k], path, line);
      assert FlagsSecret(all[k], path, line);
    }
  }

  // ------------------------------------------------------------------ the text of a file

  function StatusName(status: DiffParser.FileStatus): string {
    match status
    case Added => "added"
    case Removed => "removed"
    case Modified => "modified"
    case Renamed => "renamed"
  }

  /** Right-aligned in five columns. */
  function Pad(n: int): string {
    var digits := if n >= 0 then DiffParser.Decimal(n) else "-" + DiffParser.Decimal(-n);
    seq(if |digits| < 5 then 5 - |digits| else 0, _ => ' ') + digits
  }

  function Format(o: Out): string {
    match o
    case Heading(path, status) => "### " + path + " (" + StatusName(status) + ")"
    case Gap => "  ..."
    case Deleted(gone) => "-       | " + gone
    case Line(isAdded, n, text) => (if isAdded then "+ " else "  ") + Pad(n) + " | " + text
  }

  function Text(r: Rendered): string {
    DiffParser.JoinLines(MapSeq(Format, r.out))
  }

  // ------------------------------------------------------------------ the token budget

  /** Three and a half characters a token, rounded up. */
  function Tokens(chars: nat): nat {
    (2 * chars + 6) / 7
  }

  lemma TokensRoundUp(chars: nat)
    ensures chars as real / 3.5 <= Tokens(chars) as real < chars as real / 3.5 + 1.0
  {
    assert 7 * Tokens(chars) >= 2 * chars > 7 * Tokens(chars) - 7;
  }

  /** How long the first `n` texts are, an empty line between each two. */
  function Length(files: seq<Rendered>, n: nat): nat
    requires n <= |files|
    decreases n
  {
    if n == 0 then 0
    else Length(files, n - 1) + (if n > 1 then 2 else 0) + |Text(files[n - 1])|
  }

  function Size(fixed: nat, files: seq<Rendered>, n: nat): nat
    requires n <= |files|
  {
    Tokens(fixed + Length(files, n))
  }

  lemma {:induction false} SizeGrows(fixed: nat, files: seq<Rendered>, m: nat, n: nat)
    requires m <= n <= |files|
    ensures Length(files, m) <= Length(files, n) && Size(fixed, files, m) <= Size(fixed, files, n)
    decreases n
  {
    if m < n {
      SizeGrows(fixed, files, m, n - 1);
    }
  }

  function PathOf(r: Rendered): string {
    r.path
  }

  /** The first `n` files fit, and no more of them do; `fixed` is the length of everything else. */
  ghost predicate IsLongestFit(fixed: nat, files: seq<Rendered>, budget: int, n: nat)
    requires n <= |files|
  {
    (n == 0 || Size(fixed, files, n) <= budget) && forall m :: n < m <= |files| ==> Size(fixed, files, m) > budget
  }

  lemma LengthOfPrefix(files: seq<Rendered>, k: nat, n: nat)
    requires n <= k <= |files|
    ensures Length(files[..k], n) == Length(files, n)
    decreases n
  {
    if n > 0 {
      LengthOfPrefix(files, k, n - 1);
    }
  }

  /** Drops files from the end until the rest fits. */
  method FitToBudget(fixed: nat, rendered: seq<Rendered>, budget: int)
    returns (kept: seq<Rendered>, omitted: seq<string>)
    ensures |kept| <= |rendered| && kept == rendered[..|kept|]
    ensures omitted == MapSeq(PathOf, rendered[|kept|..])
    ensures IsLongestFit(fixed, rendered, budget, |kept|)
  {
    kept, omitted := rendered, [];
    assert rendered[..|rendered|] == rendered;
    while kept != [] && Size(fixed, kept, |kept|) > budget
      invariant |kept| <= |rendered| && kept == rendered[..|kept|]
      invariant omitted == MapSeq(PathOf, rendered[|kept|..])
      invariant forall m :: |kept| < m <= |rendered| ==> Size(fixed, rendered, m) > budget
      decreases |kept|
    {
      LengthOfPrefix(rendered, |kept|, |kept|);
      var last := kept[|kept| - 1];
      assert rendered[|kept| - 1..] == [last] + rendered[|kept|..];
      omitted := [last.path] + omitted;
      kept := kept[..|kept| - 1];
    }
    LengthOfPrefix(rendered, |kept|, |kept|);
  }

  /** Every shorter prefix fits too, so the files kept are those of the longest prefix that fits. */
  lemma KeptIsTheLongestPrefix(fixed: nat, files: seq<Rendered>, budget: int, n: nat, m: nat)
    requires n <= |files| && IsLongestFit(fixed, files, budget, n) && 0 < m <= |files|
    ensures Size(fixed, files, m) <= budget <==> m <= n
  {
    if m <= n {
      SizeGrows(fixed, files, m, n);
    }
  }

  // ------------------------------------------------------------------ which files, in which order

  /** Paths that are never looked at, paths that never leave, and paths worth reading first. */
  datatype PathRules = PathRules(ignored: string -> bool, mustScan: string -> bool, risky: string -> bool)

  predicate IsCandidate(rules: PathRules, file: PromptFile) {
    file.patch.Some? && !rules.ignored(file.path) && !rules.mustScan(file.path)
  }

  predicate IsPrivate(rules: PathRules, file: PromptFile) {
    file.patch.Some? && !rules.ignored(file.path) && rules.mustScan(file.path)
  }

  function Candidate(rules: PathRules): PromptFile -> bool {
    file => IsCandidate(rules, file)
  }

  function Private(rules: PathRules): PromptFile -> bool {
    file => IsPrivate(rules, file)
  }

  function FilePath(file: PromptFile): string {
    file.path
  }

  ghost predicate SelectedTo(
    rules: PathRules, files: seq<PromptFile>, candidates: seq<PromptFile>, notSent: seq<string>)
  {
    candidates == Filter(files, Candidate(rules)) && notSent == MapSeq(FilePath, Filter(files, Private(rules)))
  }

  lemma SelectSnoc(
    rules: PathRules, files: seq<PromptFile>, candidates: seq<PromptFile>, notSent: seq<string>, file: PromptFile)
    requires SelectedTo(rules, files, candidates, notSent)
    ensures SelectedTo(rules, files + [file],
                       if IsCandidate(rules, file) then candidates + [file] else candidates,
                       if IsPrivate(rules, file) then notSent + [file.path] else notSent)
  {
    FilterSnoc(files, file, Candidate(rules));
    FilterSnoc(files, file, Private(rules));
  }

  method SelectFiles(rules: PathRules, files: seq<PromptFile>)
    returns (candidates: seq<PromptFile>, notSent: seq<string>)
    ensures candidates == Filter(files, Candidate(rules))
    ensures notSent == MapSeq(FilePath, Filter(files, Private(rules)))
  {
    candidates, notSent := [], [];
    var k := 0;
    while k < |files|
      invariant k <= |files| && SelectedTo(rules, files[..k], candidates, notSent)
    {
      var file := files[k];
      assert files[..k + 1] == files[..k] + [file];
      SelectSnoc(rules, files[..k], candidates, notSent, file);
      hide SelectedTo;
      k := k + 1;
      if file.patch.None? || rules.ignored(file.path) {
        continue;
      }
      if rules.mustScan(file.path) {
        notSent := notSent + [file.path];
        continue;
      }
      candidates := candidates + [file];
    }
    assert files[..k] == files;
  }

  function Rank(rules: PathRules, withFindings: set<string>, file: PromptFile): nat {
    if file.path in withFindings then 0 else if rules.risky(file.path) then 1 else 2
  }

  function PatchSize(file: PromptFile): nat {
    if file.patch.Some? then |file.patch.value| else 0
  }

  /** Files with findings first, then risky ones, then the smallest. */
  function GoesBefore(rules: PathRules, withFindings: set<string>): (PromptFile, PromptFile) -> bool {
    (a: PromptFile, b: PromptFile) =>
      var ra, rb := Rank(rules, withFindings, a), Rank(rules, withFindings, b);
      ra < rb || (ra == rb && PatchSize(a) < PatchSize(b))
  }

  lemma GoesBeforeIsOrder(rules: PathRules, withFindings: set<string>)
    ensures IsOrder(GoesBefore(rules, withFindings))
  {
  }

  /** Files the static step found something active in. */
  function WithFindings(findings: seq<StaticFinding>): set<string> {
    set f <- findings | !f.suppressed :: f.filePath
  }

  function RenderOne(byFile: map<string, set<int>>, context: nat, file: PromptFile): Option<Rendered> {
    if PatchHunks(file) == [] then None
    else Some(Render(file, PatchHunks(file), LinesAt(byFile, file.path), context))
  }

  /** `render` renders each file with the secret lines of `byFile`. */
  ghost predicate IsRenderer(render: PromptFile -> Option<Rendered>, byFile: map<string, set<int>>, context: nat) {
    forall file {:trigger RenderOne(byFile, context, file)} :: RenderOne(byFile, context, file) == render(file)
  }

  lemma RendererOf(byFile: map<string, set<int>>, context: nat) returns (render: PromptFile -> Option<Rendered>)
    ensures IsRenderer(render, byFile, context)
  {
    render := file => RenderOne(byFile, context, file);
  }

  /** What is rendered of the first `n` files, in the order given. */
  function RenderAll(files: seq<PromptFile>, render: PromptFile -> Option<Rendered>, n: nat): seq<Rendered>
    requires n <= |files|
    decreases n
  {
    if n == 0 then []
    else
      var before, r := RenderAll(files, render, n - 1), render(files[n - 1]);
      if r.None? then before else before + [r.value]
  }

  function Ordered(rules: PathRules, findings: seq<StaticFinding>, files: seq<PromptFile>): seq<PromptFile> {
    Sort(Filter(files, Candidate(rules)), GoesBefore(rules, WithFindings(findings)))
  }

  method RenderWith(
    ghost render: PromptFile -> Option<Rendered>, file: PromptFile, secretLines: map<string, set<int>>, contextLines: nat)
    returns (r: Option<Rendered>)
    requires IsRenderer(render, secretLines, contextLines)
    ensures r == render(file)
  {
    r := RenderFile(file, LinesAt(secretLines, file.path), contextLines);
    assert r == RenderOne(secretLines, contextLines, file);
  }

  method RenderFiles(
    ghost render: PromptFile -> Option<Rendered>, files: seq<PromptFile>, secretLines: map<string, set<int>>,
    contextLines: nat)
    returns (rendered: seq<Rendered>)
    requires IsRenderer(render, secretLines, contextLines)
    ensures rendered == RenderAll(files, render, |files|)
  {
    rendered := [];
    var k := 0;
    while k < |files|
      invariant k <= |files| && rendered == RenderAll(files, render, k)
    {
      var one := RenderWith(render, files[k], secretLines, contextLines);
      if one.Some? {
        rendered := rendered + [one.value];
      }
      k := k + 1;
    }
  }

  /** `fixed` is the length of the prompt around the files. */
  method ChooseFiles(
    rules: PathRules, files: seq<PromptFile>, findings: seq<StaticFinding>, contextLines: nat, fixed: nat, budget: int)
    returns (kept: seq<Rendered>, filesOmitted: seq<string>,
             ghost byFile: map<string, set<int>>, ghost render: PromptFile -> Option<Rendered>)
    ensures HoldsSecretLines(byFile, findings) && IsRenderer(render, byFile, contextLines)
    ensures var ordered := Ordered(rules, findings, files);
            var rendered := RenderAll(ordered, render, |ordered|);
            && |kept| <= |rendered| && kept == rendered[..|kept|]
            && IsLongestFit(fixed, rendered, budget, |kept|)
            && filesOmitted == MapSeq(PathOf, rendered[|kept|..]) + MapSeq(FilePath, Filter(files, Private(rules)))
  {
    var secretLines := SecretLinesByFile(findings);
    byFile := secretLines;
    render := RendererOf(secretLines, contextLines);
    var candidates, notSent := SelectFiles(rules, files);
    var ordered := Sort(candidates, GoesBefore(rules, WithFindings(findings)));
    var rendered := RenderFiles(render, ordered, secretLines, contextLines);
    var omittedForSize;
    kept, omittedForSize := FitToBudget(fixed, rendered, budget);
    filesOmitted := omittedForSize + notSent;
  }

  // ------------------------------------------------------------------ what that means

  /** Of the lines a secret rule flagged only the redaction is sent, and only that is recorded. */
  ghost predicate HidesSecrets(r: Rendered, findings: seq<StaticFinding>) {
    && (forall k :: 0 <= k < |r.out| && r.out[k].Line? && IsSecretLine(findings, r.path, r.out[k].n) ==>
          r.out[k].text == REDACTED)
    && (forall line :: line in r.lines && IsSecretLine(findings, r.path, line) ==> r.lines[line] == REDACTED)
  }

  lemma RenderHides(findings: seq<StaticFinding>, byFile: map<string, set<int>>, context: nat, file: PromptFile)
    requires HoldsSecretLines(byFile, findings)
    ensures Hides(RenderOne(byFile, context, file), findings)
  {
    var r := RenderOne(byFile, context, file);
    if r.Some? {
      PromptExact.ParsedIsFromPatch(file);
      PromptExact.PrintsWhatItRecords(file, PatchHunks(file), LinesAt(byFile, file.path), context);
      forall line | line in r.value.lines && IsSecretLine(findings, file.path, line)
        ensures r.value.lines[line] == REDACTED
      {
        assert line in LinesAt(byFile, file.path);
      }
    }
  }

  ghost predicate Hides(r: Option<Rendered>, findings: seq<StaticFinding>) {
    r.Some? ==> HidesSecrets(r.value, findings)
  }

  /** Whichever files are sent, no line a secret rule flagged is sent as it is. */
  lemma {:induction false} NoSecretIsSent(
    findings: seq<StaticFinding>, byFile: map<string, set<int>>, context: nat,
    render: PromptFile -> Option<Rendered>, files: seq<PromptFile>, n: nat, k: nat)
    requires HoldsSecretLines(byFile, findings) && IsRenderer(render, byFile, context)
    requires n <= |files| && k < |RenderAll(files, render, n)|
    ensures HidesSecrets(RenderAll(files, render, n)[k], findings)
    decreases n
  {
    if k < |RenderAll(files, render, n - 1)| {
      NoSecretIsSent(findings, byFile, context, render, files, n - 1, k);
    } else {
      RenderHides(findings, byFile, context, files[n - 1]);
    }
  }

  /** The order is by rank, then size; among equals it is the order the files came in. */
  lemma OrderIsStable(rules: PathRules, findings: seq<StaticFinding>, files: seq<PromptFile>, file: PromptFile)
    ensures var before := GoesBefore(rules, WithFindings(findings));
            var ordered := Ordered(rules, findings, files);
            Sorted(ordered, before) && SameElements(ordered, Filter(files, Candidate(rules))) &&
            Filter(ordered, Ties(file, before)) == Filter(Filter(files, Candidate(rules)), Ties(file, before))
  {
    var before := GoesBefore(rules, WithFindings(findings));
    GoesBeforeIsOrder(rules, WithFindings(findings));
    SortSorts(Filter(files, Candidate(rules)), before);
    SortKeepsElements(Filter(files, Candidate(rules)), before);
    SortIsStable(Filter(files, Candidate(rules)), before, file);
  }
}
