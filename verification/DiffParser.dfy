/** Unified-diff text to numbered hunks: src/queue/diff/diff-parser.ts. */
module DiffParser {
  import opened Seqs

  /** What a push did to a file. */
  datatype FileStatus = Added | Removed | Modified | Renamed

  datatype LineKind = Add | Del | Context

  datatype DiffLine = DiffLine(
    kind: LineKind,
    newLine: Option<nat>,
    oldLine: Option<nat>,
    text: string)

  datatype DiffHunk = DiffHunk(
    oldStart: nat,
    oldCount: nat,
    newStart: nat,
    lines: seq<DiffLine>)

  // ----- splitting text into lines -----

  predicate OneLine(s: string) {
    '\n' !in s
  }

  /** `s.split('\n')`: always at least one line. */
  function SplitLines(s: string): (r: seq<string>)
    ensures |r| >= 1
    ensures forall k :: 0 <= k < |r| ==> OneLine(r[k])
  {
    if s == "" then [""]
    else
      var rest := SplitLines(s[1..]);
      if s[0] == '\n' then [""] + rest
      else [[s[0]] + rest[0]] + rest[1..]
  }

  /** `lines.join('\n')`. */
  function JoinLines(lines: seq<string>): string {
    if lines == [] then ""
    else if |lines| == 1 then lines[0]
    else lines[0] + "\n" + JoinLines(lines[1..])
  }

  lemma {:induction false} SplitHead(line: string, rest: string)
    requires OneLine(line)
    ensures SplitLines(line + "\n" + rest) == [line] + SplitLines(rest)
    ensures SplitLines(line) == [line]
  {
    if line == "" {
      assert (line + "\n" + rest)[1..] == rest;
    } else {
      SplitHead(line[1..], rest);
      assert (line + "\n" + rest)[1..] == line[1..] + "\n" + rest;
      assert [line[0]] + line[1..] == line;
    }
  }

  lemma {:induction false} SplitJoin(lines: seq<string>)
    requires |lines| >= 1
    requires forall k :: 0 <= k < |lines| ==> OneLine(lines[k])
    ensures SplitLines(JoinLines(lines)) == lines
    ensures SplitLines(JoinLines(lines) + "\n") == lines + [""]
  {
    if |lines| == 1 {
      SplitHead(lines[0], "");
      assert lines[0] + "\n" == lines[0] + "\n" + "";
      assert lines == [lines[0]];
    } else {
      SplitJoin(lines[1..]);
      SplitHead(lines[0], JoinLines(lines[1..]));
      SplitHead(lines[0], JoinLines(lines[1..]) + "\n");
      assert JoinLines(lines) + "\n" == lines[0] + "\n" + (JoinLines(lines[1..]) + "\n");
      assert lines == [lines[0]] + lines[1..];
    }
  }

  // ----- decimal numbers -----

  predicate IsDigit(c: char) {
    '0' <= c <= '9'
  }

  /** How many digits `s` starts with (a greedy `\d*`). */
  function DigitRun(s: string): (n: nat)
    ensures n <= |s|
    ensures forall k :: 0 <= k < n ==> IsDigit(s[k])
    ensures n < |s| ==> !IsDigit(s[n])
  {
    if s != "" && IsDigit(s[0]) then 1 + DigitRun(s[1..]) else 0
  }

  /** `Number(s)` of a string of digits. */
  function ToNumber(s: string): (n: nat)
    requires forall k :: 0 <= k < |s| ==> IsDigit(s[k])
  {
    if s == "" then 0
    else
      assert IsDigit(s[|s| - 1]);
      10 * ToNumber(s[..|s| - 1]) + (s[|s| - 1] as int - '0' as int)
  }

  function Decimal(n: nat): (s: string)
    ensures s != "" && forall k :: 0 <= k < |s| ==> IsDigit(s[k])
  {
    var digit := [('0' as int + n % 10) as char];
    if n < 10 then digit else Decimal(n / 10) + digit
  }

  lemma {:induction false} ReadDecimal(n: nat)
    ensures ToNumber(Decimal(n)) == n
  {
    if n >= 10 {
      ReadDecimal(n / 10);
      assert Decimal(n)[..|Decimal(n)| - 1] == Decimal(n / 10);
    }
  }

  lemma {:induction false} RunOf(digits: string, rest: string)
    requires forall k :: 0 <= k < |digits| ==> IsDigit(digits[k])
    requires rest == "" || !IsDigit(rest[0])
    ensures DigitRun(digits + rest) == |digits|
  {
    if digits == "" {
      assert digits + rest == rest;
    } else {
      RunOf(digits[1..], rest);
      assert (digits + rest)[1..] == digits[1..] + rest;
    }
  }

  // ----- the hunk header  /^@@ -(\d+)(?:,(\d+))? \+(\d+)(?:,\d+)? @@/ -----

  datatype Header = Header(oldStart: nat, oldCount: nat, newStart: nat)

  /** What follows the literal `lit` at the front of `s`. */
  function After(lit: string, s: string): Option<string> {
    if lit <= s then Some(s[|lit|..]) else None
  }

  /** `(\d+)` and what follows it. */
  function Field(s: string): Option<(nat, string)> {
    var n := DigitRun(s);
    if n == 0 then None else Some((ToNumber(s[..n]), s[n..]))
  }

  /** `(?:,(\d+))?` and what follows it. */
  function OptionalField(s: string): (Option<nat>, string) {
    if s != "" && s[0] == ',' && Field(s[1..]).Some? then
      (Some(Field(s[1..]).value.0), Field(s[1..]).value.1)
    else
      (None, s)
  }

  function MatchHeader(line: string): Option<Header> {
    var s :- After("@@ -", line);
    var oldStart :- Field(s);
    var oldCount := OptionalField(oldStart.1);
    var t :- After(" +", oldCount.1);
    var newStart :- Field(t);
    var newCount := OptionalField(newStart.1);
    var end :- After(" @@", newCount.1);
    Some(Header(
           oldStart.0,
           if oldCount.0.None? then 1 else oldCount.0.value,
           newStart.0))
  }

  // ----- parsing -----

  /** What one raw line of a patch is. */
  datatype Item = HunkStart(header: Header) | Body(kind: LineKind, text: string) | Skipped

  function Classify(raw: string): Item {
    var header := MatchHeader(raw);
    if header.Some? then HunkStart(header.value)
    else if raw == "" then Body(Context, "")
    else if raw[0] == '+' then Body(Add, raw[1..])
    else if raw[0] == '-' then Body(Del, raw[1..])
    else if raw[0] == ' ' then Body(Context, raw[1..])
    else Skipped
  }

  function ClassifyAll(raws: seq<string>): (r: seq<Item>)
    ensures |r| == |raws|
    ensures forall k :: 0 <= k < |raws| ==> r[k] == Classify(raws[k])
  {
    seq(|raws|, k requires 0 <= k < |raws| => Classify(raws[k]))
  }

  /** The hunks so far, and the numbers the next body line gets. */
  datatype Cursor = Cursor(hunks: seq<DiffHunk>, nextOld: nat, nextNew: nat)

  function NumberedLine(kind: LineKind, text: string, oldNo: nat, newNo: nat): DiffLine {
    DiffLine(kind, if kind == Del then None else Some(newNo), if kind == Add then None else Some(oldNo), text)
  }

  function Push(hunks: seq<DiffHunk>, line: DiffLine): (r: seq<DiffHunk>)
    requires hunks != []
    ensures |r| == |hunks|
  {
    var last := hunks[|hunks| - 1];
    hunks[|hunks| - 1 := last.(lines := last.lines + [line])]
  }

  /** The effect of one line of the patch; before the first header only a header counts. */
  function Feed(c: Cursor, item: Item): Cursor {
    match item
    case HunkStart(h) =>
      Cursor(c.hunks + [DiffHunk(h.oldStart, h.oldCount, h.newStart, [])], h.oldStart, h.newStart)
    case Body(kind, text) =>
      if c.hunks == [] then c
      else Cursor(Push(c.hunks, NumberedLine(kind, text, c.nextOld, c.nextNew)),
                  c.nextOld + (if kind == Add then 0 else 1),
                  c.nextNew + (if kind == Del then 0 else 1))
    case Skipped => c
  }

  function FeedAll(c: Cursor, items: seq<Item>): Cursor {
    if items == [] then c
    else Feed(FeedAll(c, items[..|items| - 1]), items[|items| - 1])
  }

  const START := Cursor([], 0, 0)

  function Parse(patch: string): seq<DiffHunk> {
    FeedAll(START, ClassifyAll(SplitLines(patch))).hunks
  }

  method ParsePatch(patch: string) returns (hunks: seq<DiffHunk>)
    ensures hunks == Parse(patch)
  {
    hunks := [];
    var nextNewLine := 0;
    var nextOldLine := 0;
    var rawLines := SplitLines(patch);
    ghost var items := ClassifyAll(rawLines);
    assert FeedAll(START, items[..0]) == START;
    assert items[..|rawLines|] == items;
    hide FeedAll, ClassifyAll, MatchHeader, SplitLines;
    for i := 0 to |rawLines|
      invariant Cursor(hunks, nextOldLine, nextNewLine) == FeedAll(START, items[..i])
    {
      var rawLine := rawLines[i];
      FeedNext(START, items, i);
      assert items[i] == Classify(rawLine);
      var header := MatchHeader(rawLine);
      if header.Some? {
        nextOldLine := header.value.oldStart;
        nextNewLine := header.value.newStart;
        hunks := hunks + [DiffHunk(nextOldLine, header.value.oldCount, nextNewLine, [])];
        continue;
      }
      if hunks == [] {
        continue;
      }
      if "+" <= rawLine {
        hunks := Push(hunks, DiffLine(Add, Some(nextNewLine), None, rawLine[1..]));
        nextNewLine := nextNewLine + 1;
      } else if "-" <= rawLine {
        hunks := Push(hunks, DiffLine(Del, None, Some(nextOldLine), rawLine[1..]));
        nextOldLine := nextOldLine + 1;
      } else if " " <= rawLine || rawLine == "" {
        var text := if rawLine == "" then "" else rawLine[1..];
        hunks := Push(hunks, DiffLine(Context, Some(nextNewLine), Some(nextOldLine), text));
        nextNewLine := nextNewLine + 1;
        nextOldLine := nextOldLine + 1;
      }
    }
  }

  lemma FeedNext(c: Cursor, items: seq<Item>, i: nat)
    requires i < |items|
    ensures FeedAll(c, items[..i + 1]) == Feed(FeedAll(c, items[..i]), items[i])
  {
    assert items[..i + 1][..i] == items[..i];
  }

  // ----- numbering -----

  /** How many lines of the old file a run of hunk lines stands for. */
  function OldCount(lines: seq<DiffLine>): nat {
    if lines == [] then 0
    else OldCount(lines[..|lines| - 1]) + if lines[|lines| - 1].kind == Add then 0 else 1
  }

  /** How many lines of the new file a run of hunk lines stands for. */
  function NewCount(lines: seq<DiffLine>): nat {
    if lines == [] then 0
    else NewCount(lines[..|lines| - 1]) + if lines[|lines| - 1].kind == Del then 0 else 1
  }

  /** Every line carries the numbers the lines before it leave it. */
  predicate Numbered(lines: seq<DiffLine>, oldStart: nat, newStart: nat) {
    lines == [] ||
    var before := lines[..|lines| - 1];
    && Numbered(before, oldStart, newStart)
    && lines[|lines| - 1] == NumberedLine(lines[|lines| - 1].kind, lines[|lines| - 1].text,
                                         oldStart + OldCount(before), newStart + NewCount(before))
  }

  predicate WellNumbered(h: DiffHunk) {
    Numbered(h.lines, h.oldStart, h.newStart)
  }

  lemma {:induction false} NumberedSnoc(lines: seq<DiffLine>, kind: LineKind, text: string, oldStart: nat, newStart: nat)
    requires Numbered(lines, oldStart, newStart)
    ensures var line := NumberedLine(kind, text, oldStart + OldCount(lines), newStart + NewCount(lines));
            && Numbered(lines + [line], oldStart, newStart)
            && OldCount(lines + [line]) == OldCount(lines) + (if kind == Add then 0 else 1)
            && NewCount(lines + [line]) == NewCount(lines) + (if kind == Del then 0 else 1)
  {
    var line := NumberedLine(kind, text, oldStart + OldCount(lines), newStart + NewCount(lines));
    assert (lines + [line])[..|lines|] == lines;
  }

  /** The counters agree with the hunk being filled. */
  ghost predicate CursorOk(c: Cursor) {
    && (forall k :: 0 <= k < |c.hunks| ==> WellNumbered(c.hunks[k]))
    && (c.hunks != [] ==>
          var h := c.hunks[|c.hunks| - 1];
          && c.nextOld == h.oldStart + OldCount(h.lines)
          && c.nextNew == h.newStart + NewCount(h.lines))
  }

  /** Whatever the text, every hunk that comes out is numbered consistently. */
  lemma {:induction false} FeedKeepsNumbers(items: seq<Item>)
    ensures CursorOk(FeedAll(START, items))
  {
    if items != [] {
      hide CursorOk, Feed;
      FeedKeepsNumbers(items[..|items| - 1]);
      FeedKeepsCursor(FeedAll(START, items[..|items| - 1]), items[|items| - 1]);
    }
  }

  lemma FeedKeepsCursor(c: Cursor, item: Item)
    requires CursorOk(c)
    ensures CursorOk(Feed(c, item))
  {
    if item.Body? && c.hunks != [] {
      var h := c.hunks[|c.hunks| - 1];
      NumberedSnoc(h.lines, item.kind, item.text, h.oldStart, h.newStart);
    }
  }

  lemma ParseGivesWellNumberedHunks(patch: string)
    ensures forall h :: h in Parse(patch) ==> WellNumbered(h)
  {
    FeedKeepsNumbers(ClassifyAll(SplitLines(patch)));
  }

  // ----- printing -----

  function Prefix(kind: LineKind): char {
    match kind
    case Add => '+'
    case Del => '-'
    case Context => ' '
  }

  function PrintHeader(h: DiffHunk): string {
    "@@ -" + (Decimal(h.oldStart) + ("," + (Decimal(h.oldCount)
    + (" +" + (Decimal(h.newStart) + ("," + (Decimal(NewCount(h.lines)) + " @@")))))))
  }

  function PrintBody(lines: seq<DiffLine>): (r: seq<string>)
    ensures |r| == |lines|
  {
    seq(|lines|, k requires 0 <= k < |lines| => [Prefix(lines[k].kind)] + lines[k].text)
  }

  function PrintHunk(h: DiffHunk): seq<string> {
    [PrintHeader(h)] + PrintBody(h.lines)
  }

  function PrintHunks(hunks: seq<DiffHunk>): seq<string> {
    if hunks == [] then [] else PrintHunks(hunks[..|hunks| - 1]) + PrintHunk(hunks[|hunks| - 1])
  }

  function PrintPatch(hunks: seq<DiffHunk>): string {
    JoinLines(PrintHunks(hunks))
  }

  predicate Printable(h: DiffHunk) {
    WellNumbered(h) && forall k :: 0 <= k < |h.lines| ==> OneLine(h.lines[k].text)
  }

  lemma FieldOf(n: nat, rest: string)
    requires rest == "" || !IsDigit(rest[0])
    ensures Field(Decimal(n) + rest) == Some((n, rest))
  {
    RunOf(Decimal(n), rest);
    ReadDecimal(n);
    assert (Decimal(n) + rest)[..|Decimal(n)|] == Decimal(n);
    assert (Decimal(n) + rest)[|Decimal(n)|..] == rest;
  }

  lemma {:induction false} OptionalFieldOf(n: nat, rest: string)
    requires rest == "" || !IsDigit(rest[0])
    ensures OptionalField("," + (Decimal(n) + rest)) == (Some(n), rest)
  {
    FieldOf(n, rest);
    assert ("," + (Decimal(n) + rest))[1..] == Decimal(n) + rest;
  }

  lemma AfterOf(lit: string, rest: string)
    ensures After(lit, lit + rest) == Some(rest)
  {
    assert (lit + rest)[|lit|..] == rest;
  }

  lemma {:induction false} HeaderRoundTrip(h: DiffHunk)
    ensures MatchHeader(PrintHeader(h)) == Some(Header(h.oldStart, h.oldCount, h.newStart))
  {
    var n := NewCount(h.lines);
    var s6 := " @@";
    var s5 := "," + (Decimal(n) + s6);
    var s4 := " +" + (Decimal(h.newStart) + s5);
    var s3 := "," + (Decimal(h.oldCount) + s4);
    var s2 := Decimal(h.oldStart) + s3;
    AfterOf("@@ -", s2);
    FieldOf(h.oldStart, s3);
    OptionalFieldOf(h.oldCount, s4);
    AfterOf(" +", Decimal(h.newStart) + s5);
    FieldOf(h.newStart, s5);
    OptionalFieldOf(n, s6);
    AfterOf(" @@", "");
    assert s6 == " @@" + "";
  }

  lemma HeaderIsOneLine(h: DiffHunk)
    ensures OneLine(PrintHeader(h))
  {
    assert OneLine(Decimal(h.oldStart)) && OneLine(Decimal(h.oldCount));
    assert OneLine(Decimal(h.newStart)) && OneLine(Decimal(NewCount(h.lines)));
  }

  lemma {:induction false} FeedAllConcat(c: Cursor, a: seq<Item>, b: seq<Item>)
    ensures FeedAll(c, a + b) == FeedAll(FeedAll(c, a), b)
    decreases |b|
  {
    if b == [] {
      assert a + b == a;
    } else {
      assert (a + b)[..|a + b| - 1] == a + b[..|b| - 1];
      FeedAllConcat(c, a, b[..|b| - 1]);
    }
  }

  function BodyItems(lines: seq<DiffLine>): seq<Item> {
    seq(|lines|, k requires 0 <= k < |lines| => Body(lines[k].kind, lines[k].text))
  }

  function HunkItems(h: DiffHunk): seq<Item> {
    [HunkStart(Header(h.oldStart, h.oldCount, h.newStart))] + BodyItems(h.lines)
  }

  lemma {:induction false} ClassifyPrintedLine(line: DiffLine)
    ensures Classify([Prefix(line.kind)] + line.text) == Body(line.kind, line.text)
  {
    var raw := [Prefix(line.kind)] + line.text;
    assert raw[1..] == line.text;
    assert raw[0] == Prefix(line.kind) != '@';
    assert After("@@ -", raw).None?;
  }

  lemma {:induction false} ClassifyPrintedHeader(h: DiffHunk)
    ensures Classify(PrintHeader(h)) == HunkStart(Header(h.oldStart, h.oldCount, h.newStart))
  {
    HeaderRoundTrip(h);
  }

  /** The classified form of a printed hunk list. */
  function Items(hunks: seq<DiffHunk>): seq<Item> {
    if hunks == [] then [] else Items(hunks[..|hunks| - 1]) + HunkItems(hunks[|hunks| - 1])
  }

  ghost predicate Classifies(raws: seq<string>, items: seq<Item>) {
    |raws| == |items| && forall k :: 0 <= k < |raws| ==> Classify(raws[k]) == items[k]
  }

  lemma ClassifiesConcat(a: seq<string>, x: seq<Item>, b: seq<string>, y: seq<Item>)
    requires Classifies(a, x) && Classifies(b, y)
    ensures Classifies(a + b, x + y)
  {
  }

  lemma ClassifiesAll(raws: seq<string>, items: seq<Item>)
    requires Classifies(raws, items)
    ensures ClassifyAll(raws) == items
  {
  }

  lemma {:induction false} ClassifyPrintedBody(lines: seq<DiffLine>)
    ensures Classifies(PrintBody(lines), BodyItems(lines))
  {
    forall k | 0 <= k < |lines|
      ensures Classify(PrintBody(lines)[k]) == BodyItems(lines)[k]
    {
      ClassifyPrintedLine(lines[k]);
    }
  }

  lemma {:induction false} ClassifyPrinted(hunks: seq<DiffHunk>)
    ensures Classifies(PrintHunks(hunks), Items(hunks))
  {
    if hunks != [] {
      var h := hunks[|hunks| - 1];
      var header := PrintHeader(h);
      var start := HunkStart(Header(h.oldStart, h.oldCount, h.newStart));
      ClassifyPrinted(hunks[..|hunks| - 1]);
      ClassifyPrintedHeader(h);
      ClassifyPrintedBody(h.lines);
      ClassifiesConcat([header], [start], PrintBody(h.lines), BodyItems(h.lines));
      ClassifiesConcat(PrintHunks(hunks[..|hunks| - 1]), Items(hunks[..|hunks| - 1]), PrintHunk(h), HunkItems(h));
    }
  }

  /** Feeding a printed body after its header. */
  lemma {:induction false} FeedBody(done: seq<DiffHunk>, h: DiffHunk, lines: seq<DiffLine>)
    requires Numbered(lines, h.oldStart, h.newStart)
    ensures FeedAll(Cursor(done + [h.(lines := [])], h.oldStart, h.newStart), BodyItems(lines))
         == Cursor(done + [h.(lines := lines)], h.oldStart + OldCount(lines), h.newStart + NewCount(lines))
  {
    if lines != [] {
      var front := lines[..|lines| - 1];
      FeedBody(done, h, front);
      assert BodyItems(lines)[..|front|] == BodyItems(front);
      assert front + [lines[|lines| - 1]] == lines;
    }
  }

  /** Feeding a printed hunk to any cursor appends exactly that hunk. */
  lemma {:induction false} FeedHunk(c: Cursor, h: DiffHunk)
    requires WellNumbered(h)
    ensures FeedAll(c, HunkItems(h))
         == Cursor(c.hunks + [h], h.oldStart + OldCount(h.lines), h.newStart + NewCount(h.lines))
  {
    var start := [HunkStart(Header(h.oldStart, h.oldCount, h.newStart))];
    FeedAllConcat(c, start, BodyItems(h.lines));
    assert start[..0] == [];
    FeedBody(c.hunks, h, h.lines);
  }

  lemma {:induction false} FeedItems(hunks: seq<DiffHunk>)
    requires forall k :: 0 <= k < |hunks| ==> WellNumbered(hunks[k])
    ensures FeedAll(START, Items(hunks)).hunks == hunks
  {
    if hunks != [] {
      var front := hunks[..|hunks| - 1];
      var h := hunks[|hunks| - 1];
      assert Items(hunks) == Items(front) + HunkItems(h);
      hide FeedAll, Items, HunkItems, WellNumbered;
      FeedItems(front);
      FeedAllConcat(START, Items(front), HunkItems(h));
      FeedHunk(FeedAll(START, Items(front)), h);
    }
  }

  lemma {:induction false} PrintedLinesAreLines(hunks: seq<DiffHunk>)
    requires forall k :: 0 <= k < |hunks| ==> Printable(hunks[k])
    ensures forall k :: 0 <= k < |PrintHunks(hunks)| ==> OneLine(PrintHunks(hunks)[k])
    ensures hunks != [] ==> PrintHunks(hunks) != []
  {
    if hunks != [] {
      var h := hunks[|hunks| - 1];
      PrintedLinesAreLines(hunks[..|hunks| - 1]);
      HeaderIsOneLine(h);
      forall k | 0 <= k < |h.lines|
        ensures OneLine(PrintBody(h.lines)[k])
      {
        assert OneLine(h.lines[k].text);
      }
    }
  }

  lemma {:induction false} ParseLines(raws: seq<string>, items: seq<Item>)
    requires |raws| >= 1
    requires forall k :: 0 <= k < |raws| ==> OneLine(raws[k])
    requires Classifies(raws, items)
    ensures Parse(JoinLines(raws)) == FeedAll(START, items).hunks
    ensures Parse(JoinLines(raws) + "\n") == Feed(FeedAll(START, items), Body(Context, "")).hunks
  {
    SplitJoin(raws);
    ClassifiesAll(raws, items);
    ClassifiesAll(raws + [""], items + [Body(Context, "")]);
    FeedSnoc(START, items, Body(Context, ""));
  }

  /** Parsing the printed form of any well-numbered hunk list returns it. */
  lemma PrintParseRoundTrip(hunks: seq<DiffHunk>)
    requires forall k :: 0 <= k < |hunks| ==> Printable(hunks[k])
    ensures Parse(PrintPatch(hunks)) == hunks
  {
    if hunks == [] {
      FeedSnoc(START, [], Body(Context, ""));
      ParseLines([""], [] + [Body(Context, "")]);
    } else {
      FeedItems(hunks);
      PrintedLinesAreLines(hunks);
      ClassifyPrinted(hunks);
      ParseLines(PrintHunks(hunks), Items(hunks));
    }
  }

  /** The empty context line a trailing newline leaves on the last hunk. */
  function WithPhantom(hunks: seq<DiffHunk>): (r: seq<DiffHunk>)
    ensures |r| == |hunks|
  {
    if hunks == [] then []
    else
      var h := hunks[|hunks| - 1];
      Push(hunks, NumberedLine(Context, "", h.oldStart + OldCount(h.lines), h.newStart + NewCount(h.lines)))
  }

  lemma FeedSnoc(c: Cursor, items: seq<Item>, item: Item)
    ensures FeedAll(c, items + [item]) == Feed(FeedAll(c, items), item)
  {
    assert (items + [item])[..|items|] == items;
  }

  lemma {:induction false} FeedEmptyLine(items: seq<Item>)
    ensures Feed(FeedAll(START, items), Body(Context, "")).hunks == WithPhantom(FeedAll(START, items).hunks)
  {
    FeedKeepsNumbers(items);
  }

  /** One extra newline at the end of a patch adds one empty context line to its last hunk. */
  lemma {:induction false} TrailingNewlineAddsOneLine(hunks: seq<DiffHunk>)
    requires forall k :: 0 <= k < |hunks| ==> Printable(hunks[k])
    ensures Parse(PrintPatch(hunks) + "\n") == WithPhantom(hunks)
  {
    if hunks == [] {
      FeedSnoc(START, [], Body(Context, ""));
      ParseLines([""], [] + [Body(Context, "")]);
    } else {
      FeedItems(hunks);
      FeedEmptyLine(Items(hunks));
      PrintedLinesAreLines(hunks);
      ClassifyPrinted(hunks);
      ParseLines(PrintHunks(hunks), Items(hunks));
    }
  }

  /** A line no branch accepts ("\ No newline at end of file") changes nothing, wherever it stands. */
  lemma MarkersAreSkipped(before: seq<string>, marker: string, after: seq<string>)
    requires Classify(marker).Skipped?
    ensures FeedAll(START, ClassifyAll(before + [marker] + after)) == FeedAll(START, ClassifyAll(before + after))
  {
    var b := ClassifyAll(before);
    var a := ClassifyAll(after);
    assert ClassifyAll(before + [marker] + after) == b + [Skipped] + a;
    assert ClassifyAll(before + after) == b + a;
    hide FeedAll, ClassifyAll, Classify;
    assert Feed(FeedAll(START, b), Skipped) == FeedAll(START, b);
    hide Feed;
    FeedAllConcat(START, b + [Skipped], a);
    FeedAllConcat(START, b, a);
    FeedSnoc(START, b, Skipped);
  }
}
