/** What the model is shown of one changed file: `renderFile` of src/modules/ai/scan/ai-prompt-builder.ts. */
module PromptRender {
  import opened Seqs
  import opened Sorting
  import opened RangeMerge
  import opened DiffParser

  const REDACTED := "[REDACTED:secret]"

  datatype PromptFile = PromptFile(
    path: string,
    status: FileStatus,
    patch: Option<string>,
    headLines: Option<seq<string>>)

  // ------------------------------------------------------------------ reading the hunks

  /** What the hunks say about the new side of the file. */
  datatype Collected = Collected(
    added: set<int>,
    text: map<int, string>,
    deletedBefore: map<int, seq<string>>,
    trailing: seq<string>,
    ranges: seq<Range>)

  const NOTHING := Collected({}, map[], map[], [], [])

  /** Within a hunk: the deleted lines not yet placed, and the new lines seen so far. */
  datatype Reading = Reading(c: Collected, pending: seq<string>, range: Option<Range>)

  function Extend(r: Option<Range>, n: int): Range {
    if r.None? then Range(n, n) else Range(Min(r.value.start, n), Max(r.value.end, n))
  }

  /** The collection with one more line of the new side, after the deleted lines `pending`. */
  function Place(c: Collected, pending: seq<string>, n: int, kind: LineKind, text: string): Collected {
    c.(deletedBefore := if pending == [] then c.deletedBefore else c.deletedBefore[n := pending],
       text := c.text[n := text],
       added := if kind == Add then c.added + {n} else c.added)
  }

  function ReadLine(r: Reading, line: DiffLine): Reading {
    if line.kind == Del then r.(pending := r.pending + [line.text])
    else if line.newLine.None? then r
    else
      var n := line.newLine.value;
      Reading(Place(r.c, r.pending, n, line.kind, line.text), [], Some(Extend(r.range, n)))
  }

  function ReadLines(c: Collected, lines: seq<DiffLine>): Reading {
    if lines == [] then Reading(c, [], None)
    else ReadLine(ReadLines(c, lines[..|lines| - 1]), lines[|lines| - 1])
  }

  function EndHunk(r: Reading): Collected {
    r.c.(trailing := r.c.trailing + r.pending,
         ranges := if r.range.Some? then r.c.ranges + [r.range.value] else r.c.ranges)
  }

  function ReadHunks(hunks: seq<DiffHunk>): Collected {
    if hunks == [] then NOTHING
    else EndHunk(ReadLines(ReadHunks(hunks[..|hunks| - 1]), hunks[|hunks| - 1].lines))
  }

  method CollectHunk(before: Collected, hunk: DiffHunk) returns (c: Collected)
    ensures c == EndHunk(ReadLines(before, hunk.lines))
  {
    c := before;
    var pending: seq<string> := [];
    var range: Option<Range> := None;
    var k := 0;
    while k < |hunk.lines|
      invariant k <= |hunk.lines|
      invariant Reading(c, pending, range) == ReadLines(before, hunk.lines[..k])
    {
      var line := hunk.lines[k];
      assert hunk.lines[..k + 1][..k] == hunk.lines[..k];
      k := k + 1;
      if line.kind == Del {
        pending := pending + [line.text];
        continue;
      }
      if line.newLine.None? {
        continue;
      }
      var n := line.newLine.value;
      if pending != [] {
        c := c.(deletedBefore := c.deletedBefore[n := pending]);
        pending := [];
      }
      c := c.(text := c.text[n := line.text]);
      if line.kind == Add {
        c := c.(added := c.added + {n});
      }
      range := Some(Extend(range, n));
    }
    assert hunk.lines[..k] == hunk.lines;
    if pending != [] {
      c := c.(trailing := c.trailing + pending);
    }
    if range.Some? {
      c := c.(ranges := c.ranges + [range.value]);
    }
  }

  method CollectHunks(hunks: seq<DiffHunk>) returns (c: Collected)
    ensures c == ReadHunks(hunks)
  {
    c := NOTHING;
    var k := 0;
    while k < |hunks|
      invariant k <= |hunks| && c == ReadHunks(hunks[..k])
    {
      assert hunks[..k + 1][..k] == hunks[..k];
      c := CollectHunk(c, hunks[k]);
      k := k + 1;
    }
    assert hunks[..k] == hunks;
  }

  // ------------------------------------------------------------------ windows

  /** The hunk with its context, inside the file; as it is when there is no file. */
  function Widen(head: Option<seq<string>>, context: nat): Range -> Range {
    if head.None? then r => r
    else (r: Range) => Range(Max(1, r.start - context), Min(|head.value|, r.end + context))
  }

  function Widened(c: Collected, head: Option<seq<string>>, context: nat): seq<Range> {
    MapSeq(Widen(head, context), c.ranges)
  }

  function Windows(c: Collected, head: Option<seq<string>>, context: nat): seq<Range> {
    Merge(Sort(Widened(c, head, context), StartsBefore))
  }

  // ------------------------------------------------------------------ printing

  datatype Out =
    | Heading(path: string, status: FileStatus)
    | Gap
    | Deleted(gone: string)
    | Line(isAdded: bool, n: int, text: string)

  datatype View = View(c: Collected, head: Option<seq<string>>, secret: set<int>)

  /** The text of a line, if the patch or the file has it. */
  function Known(v: View, n: int): Option<string> {
    if n in v.c.text then Some(v.c.text[n])
    else if v.head.Some? && 1 <= n <= |v.head.value| then Some(v.head.value[n - 1])
    else None
  }

  function GoneBefore(v: View, n: int): seq<string> {
    if n in v.c.deletedBefore then v.c.deletedBefore[n] else []
  }

  function AsDeleted(text: string): Out {
    Deleted(text)
  }

  function Shown(v: View, n: int, known: string): Out {
    Line(n in v.c.added, n, if n in v.secret then REDACTED else known)
  }

  function PrintLine(v: View, n: int): seq<Out> {
    var gone := MapSeq(AsDeleted, GoneBefore(v, n));
    if Known(v, n).Some? then gone + [Shown(v, n, Known(v, n).value)] else gone
  }

  /** Lines `start` up to, not including, `next`. */
  function PrintUpTo(v: View, start: int, next: int): seq<Out>
    decreases next - start
  {
    if next <= start then [] else PrintUpTo(v, start, next - 1) + PrintLine(v, next - 1)
  }

  function PrintWindow(v: View, w: Range): seq<Out> {
    PrintUpTo(v, w.start, w.end + 1)
  }

  /** The heading and the first `n` windows, with a gap between windows. */
  function PrintWindows(v: View, heading: Out, windows: seq<Range>, n: nat): seq<Out>
    requires n <= |windows|
    decreases n
  {
    if n == 0 then [heading]
    else
      var before := PrintWindows(v, heading, windows, n - 1);
      (if n > 1 then before + [Gap] else before) + PrintWindow(v, windows[n - 1])
  }

  function PrintFile(v: View, heading: Out, windows: seq<Range>): seq<Out> {
    PrintWindows(v, heading, windows, |windows|) + MapSeq(AsDeleted, v.c.trailing)
  }

  /** What the printed lines say of each line number. */
  function ShownLines(out: seq<Out>): map<int, string> {
    if out == [] then map[]
    else
      var last := out[|out| - 1];
      if last.Line? then ShownLines(out[..|out| - 1])[last.n := last.text] else ShownLines(out[..|out| - 1])
  }

  lemma ShownSnoc(out: seq<Out>, x: Out)
    ensures ShownLines(out + [x]) == if x.Line? then ShownLines(out)[x.n := x.text] else ShownLines(out)
  {
    assert (out + [x])[..|out|] == out;
  }

  /** Deleted lines are printed without a number. */
  method PrintDeletedOnto(gone: seq<string>, before: seq<Out>) returns (out: seq<Out>)
    ensures out == before + MapSeq(AsDeleted, gone) && ShownLines(out) == ShownLines(before)
  {
    out := before;
    var k := 0;
    while k < |gone|
      invariant k <= |gone| && out == before + MapSeq(AsDeleted, gone)[..k]
      invariant ShownLines(out) == ShownLines(before)
    {
      ShownSnoc(out, Deleted(gone[k]));
      out := out + [Deleted(gone[k])];
      k := k + 1;
    }
  }

  method PrintLineOnto(v: View, n: int, before: seq<Out>, shownBefore: map<int, string>)
    returns (out: seq<Out>, shown: map<int, string>)
    requires shownBefore == ShownLines(before)
    ensures out == before + PrintLine(v, n) && shown == ShownLines(out)
  {
    out := PrintDeletedOnto(GoneBefore(v, n), before);
    shown := shownBefore;
    var known := Known(v, n);
    if known.Some? {
      var text := if n in v.secret then REDACTED else known.value;
      shown := shown[n := text];
      ShownSnoc(out, Line(n in v.c.added, n, text));
      out := out + [Line(n in v.c.added, n, text)];
    }
  }

  lemma PrintOneMore(v: View, before: seq<Out>, start: int, n: int)
    requires start <= n
    ensures before + PrintUpTo(v, start, n) + PrintLine(v, n) == before + PrintUpTo(v, start, n + 1)
  {
    Associative(before, PrintUpTo(v, start, n), PrintLine(v, n));
  }

  lemma Associative<T>(a: seq<T>, b: seq<T>, c: seq<T>)
    ensures a + b + c == a + (b + c)
  {
  }

  method PrintWindowOnto(v: View, w: Range, before: seq<Out>, shownBefore: map<int, string>)
    returns (out: seq<Out>, shown: map<int, string>)
    requires shownBefore == ShownLines(before)
    ensures out == before + PrintWindow(v, w) && shown == ShownLines(out)
  {
    out, shown := before, shownBefore;
    var n := w.start;
    while n <= w.end
      invariant n == w.start || w.start <= n <= w.end + 1
      invariant out == before + PrintUpTo(v, w.start, n) && shown == ShownLines(out)
      decreases w.end - n
    {
      PrintOneMore(v, before, w.start, n);
      out, shown := PrintLineOnto(v, n, out, shown);
      n := n + 1;
    }
  }

  datatype Rendered = Rendered(path: string, out: seq<Out>, added: set<int>, lines: map<int, string>)

  function Render(file: PromptFile, hunks: seq<DiffHunk>, secret: set<int>, context: nat): Rendered {
    var c := ReadHunks(hunks);
    var v := View(c, file.headLines, secret);
    var out := PrintFile(v, Heading(file.path, file.status), Windows(c, file.headLines, context));
    Rendered(file.path, out, c.added, ShownLines(out))
  }

  function PatchHunks(file: PromptFile): seq<DiffHunk> {
    Parse(if file.patch.Some? then file.patch.value else "")
  }

  /** Nothing is shown of a file whose patch has no hunk. */
  method RenderFile(file: PromptFile, secretLines: set<int>, contextLines: nat) returns (r: Option<Rendered>)
    ensures PatchHunks(file) == [] ==> r == None
    ensures PatchHunks(file) != [] ==> r == Some(Render(file, PatchHunks(file), secretLines, contextLines))
  {
    var hunks := ParsePatch(if file.patch.Some? then file.patch.value else "");
    if hunks == [] {
      return None;
    }
    var c := CollectHunks(hunks);
    var widened := Sort(Widened(c, file.headLines, contextLines), StartsBefore);
    var merged := MergeRanges(widened);
    var out, shown := PrintMerged(View(c, file.headLines, secretLines), Heading(file.path, file.status), merged);
    return Some(Rendered(file.path, out, c.added, shown));
  }

  method PrintMerged(v: View, heading: Out, merged: seq<Range>) returns (out: seq<Out>, shown: map<int, string>)
    requires heading.Heading?
    ensures out == PrintFile(v, heading, merged) && shown == ShownLines(out)
  {
    out, shown := [heading], map[];
    ShownSnoc([], heading);
    assert [] + [heading] == [heading];
    var index := 0;
    while index < |merged|
      invariant index <= |merged| && out == PrintWindows(v, heading, merged, index) && shown == ShownLines(out)
    {
      if index > 0 {
        ShownSnoc(out, Gap);
        out := out + [Gap];
      }
      out, shown := PrintWindowOnto(v, merged[index], out, shown);
      index := index + 1;
    }
    out := PrintDeletedOnto(v.c.trailing, out);
  }
}
