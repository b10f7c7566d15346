/** Two inputs for which `renderFile` of src/modules/ai/scan/ai-prompt-builder.ts does less than it says. */
module PromptExamples {
  import opened Seqs
  import opened RangeMerge
  import opened DiffParser
  import opened PromptRender
  import opened PromptExact

  /** A new file of one line. */
  function Adding(text: string): DiffHunk {
    DiffHunk(0, 0, 1, [NumberedLine(Add, text, 0, 1)])
  }

  lemma AddingIsPrintable(text: string)
    requires OneLine(text)
    ensures Printable(Adding(text))
  {
    var lines := Adding(text).lines;
    assert lines[..0] == [];
  }

  /** The first of two lines moved behind the second. */
  function Moving(t: string, u: string): DiffHunk {
    DiffHunk(1, 2, 1, [NumberedLine(Del, t, 1, 1), NumberedLine(Context, u, 2, 1), NumberedLine(Add, t, 3, 2)])
  }

  lemma MovingIsPrintable(t: string, u: string)
    requires OneLine(t) && OneLine(u)
    ensures Printable(Moving(t, u))
  {
    var lines := Moving(t, u).lines;
    FirstLines(lines);
    assert Numbered([], 1, 1) && Numbered(lines[..1], 1, 1) && Numbered(lines[..2], 1, 1) && Numbered(lines, 1, 1);
  }

  lemma FirstLines(lines: seq<DiffLine>)
    requires |lines| == 3
    ensures lines[..1][..0] == [] && lines[..2][..1] == lines[..1]
  {
  }

  lemma MovingIsRead(t: string, u: string)
    ensures ReadHunks([Moving(t, u)]) == Collected({2}, map[1 := u, 2 := t], map[1 := [t]], [], [Range(1, 2)])
  {
    var h := Moving(t, u);
    FirstLines(h.lines);
    assert [h][..0] == [];
    assert ReadLines(NOTHING, []) == Reading(NOTHING, [], None);
    assert ReadLines(NOTHING, h.lines[..1]) == Reading(NOTHING, [t], None);
    var moved := Collected({}, map[1 := u], map[1 := [t]], [], []);
    assert ReadLines(NOTHING, h.lines[..2]) == Reading(moved, [], Some(Range(1, 1)));
    assert ReadLines(NOTHING, h.lines) ==
           Reading(moved.(text := moved.text[2 := t], added := {2}), [], Some(Range(1, 2)));
  }

  /** A line is added, and is not printed when the head file fetched for it is empty. */
  lemma ShortHeadExample(path: string, text: string, secret: set<int>, context: nat)
    requires OneLine(text)
    ensures var file := PromptFile(path, Added, Some(PrintPatch([Adding(text)])), Some([]));
            var r := Render(file, PatchHunks(file), secret, context);
            PatchHunks(file) == [Adding(text)] && 1 in r.added && 1 !in Numbers(r.out)
  {
    var file := PromptFile(path, Added, Some(PrintPatch([Adding(text)])), Some([]));
    AddingIsPrintable(text);
    PrintParseRoundTrip([Adding(text)]);
    ParsedIsFromPatch(file);
    AllLinesOfOne(Adding(text));
    assert IsAddedLine(AllLines([Adding(text)])[0], 1);
    hide Render, FromPatch, PrintPatch, Parse;
    AddedLinesArePrinted(file, [Adding(text)], secret, context, 1);
  }

  lemma AllLinesOfOne(h: DiffHunk)
    ensures AllLines([h]) == h.lines
  {
    assert [h][..0] == [];
  }

  /** Any line that was moved: it is flagged where it is now, and sent as it was where it has been. */
  lemma MovedSecretExample(path: string, t: string, u: string, context: nat)
    requires OneLine(t) && OneLine(u) && t != REDACTED
    ensures var file := PromptFile(path, Modified, Some(PrintPatch([Moving(t, u)])), Some([u, t]));
            && PatchHunks(file) == [Moving(t, u)]
            && Known(ViewOf(file, PatchHunks(file), {2}), 2) == Some(t)
            && QuotesSome(Render(file, PatchHunks(file), {2}, context).out, t)
  {
    var file := PromptFile(path, Modified, Some(PrintPatch([Moving(t, u)])), Some([u, t]));
    MovingIsPrintable(t, u);
    PrintParseRoundTrip([Moving(t, u)]);
    MovingIsRead(t, u);
    var v := ViewOf(file, [Moving(t, u)], {2});
    assert QuotedAt(v, 1, t);
    assert Near(v.c.ranges[0], file.headLines, context, 1);
    hide Render, Parse, PrintPatch, QuotesSome;
    SentAsItIsIff(file, [Moving(t, u)], {2}, context, t);
  }
}
