/** What a rendered file shows, and that it shows exactly that. */
module PromptExact {
  import opened Seqs
  import opened Sorting
  import opened RangeMerge
  import opened DiffParser
  import opened PromptRender

  // ------------------------------------------------------------------ what the hunks say

  /** A line of the new side numbered `n`. */
  predicate IsNewLine(line: DiffLine, n: int) {
    line.kind != Del && line.newLine.Some? && line.newLine.value == n
  }

  predicate IsAddedLine(line: DiffLine, n: int) {
    line.kind == Add && IsNewLine(line, n)
  }

  ghost predicate HasAdded(lines: seq<DiffLine>, n: int) {
    exists k :: 0 <= k < |lines| && IsAddedLine(lines[k], n)
  }

  ghost predicate HasText(lines: seq<DiffLine>, n: int, text: string) {
    exists k :: 0 <= k < |lines| && IsNewLine(lines[k], n) && lines[k].text == text
  }

  function AllLines(hunks: seq<DiffHunk>): seq<DiffLine> {
    if hunks == [] then [] else AllLines(hunks[..|hunks| - 1]) + hunks[|hunks| - 1].lines
  }

  lemma AddedConcat(a: seq<DiffLine>, b: seq<DiffLine>, n: int)
    ensures HasAdded(a + b, n) <==> HasAdded(a, n) || HasAdded(b, n)
  {
    if HasAdded(a, n) {
      var k :| 0 <= k < |a| && IsAddedLine(a[k], n);
      assert (a + b)[k] == a[k];
    }
    if HasAdded(b, n) {
      var k :| 0 <= k < |b| && IsAddedLine(b[k], n);
      assert (a + b)[|a| + k] == b[k];
    }
  }

  lemma TextConcat(a: seq<DiffLine>, b: seq<DiffLine>, n: int, text: string)
    ensures HasText(a, n, text) || HasText(b, n, text) ==> HasText(a + b, n, text)
  {
    if HasText(a, n, text) {
      var k :| 0 <= k < |a| && IsNewLine(a[k], n) && a[k].text == text;
      assert (a + b)[k] == a[k];
    }
    if HasText(b, n, text) {
      var k :| 0 <= k < |b| && IsNewLine(b[k], n) && b[k].text == text;
      assert (a + b)[|a| + k] == b[k];
    }
  }

  lemma {:induction false} LinesAdd(c: Collected, lines: seq<DiffLine>, n: int)
    ensures n in ReadLines(c, lines).c.added <==> n in c.added || HasAdded(lines, n)
  {
    if lines != [] {
      var front, last := lines[..|lines| - 1], lines[|lines| - 1];
      LinesAdd(c, front, n);
      assert lines == front + [last];
      AddedConcat(front, [last], n);
      assert HasAdded([last], n) <==> IsAddedLine(last, n) by {
        assert [last][0] == last;
      }
    }
  }

  lemma {:induction false} HunksAdd(hunks: seq<DiffHunk>, n: int)
    ensures n in ReadHunks(hunks).added <==> HasAdded(AllLines(hunks), n)
  {
    if hunks != [] {
      var front, last := hunks[..|hunks| - 1], hunks[|hunks| - 1].lines;
      HunksAdd(front, n);
      LinesAdd(ReadHunks(front), last, n);
      AddedConcat(AllLines(front), last, n);
    }
  }

  lemma {:induction false} LinesHaveText(c: Collected, lines: seq<DiffLine>, n: int)
    ensures var text := ReadLines(c, lines).c.text;
            n in text ==> HasText(lines, n, text[n]) || (n in c.text && c.text[n] == text[n])
  {
    if lines != [] {
      var front, last := lines[..|lines| - 1], lines[|lines| - 1];
      LinesHaveText(c, front, n);
      assert lines == front + [last];
      var text := ReadLines(c, lines).c.text;
      if n in text {
        TextConcat(front, [last], n, text[n]);
        if IsNewLine(last, n) {
          assert IsNewLine([last][0], n);
        }
      }
    }
  }

  lemma {:induction false} HunksHaveText(hunks: seq<DiffHunk>, n: int)
    ensures var text := ReadHunks(hunks).text;
            n in text ==> HasText(AllLines(hunks), n, text[n])
  {
    if hunks != [] {
      var front, last := hunks[..|hunks| - 1], hunks[|hunks| - 1].lines;
      HunksHaveText(front, n);
      LinesHaveText(ReadHunks(front), last, n);
      var text := ReadHunks(hunks).text;
      if n in text {
        TextConcat(AllLines(front), last, n, text[n]);
      }
    }
  }

  /** The new lines of a run are numbered one after the other. */
  function RunRange(newStart: int, count: nat): Option<Range> {
    if count == 0 then None else Some(Range(newStart, newStart + count - 1))
  }

  lemma {:induction false} LinesAreARun(c: Collected, lines: seq<DiffLine>, oldStart: nat, newStart: nat, n: int)
    requires Numbered(lines, oldStart, newStart)
    ensures ReadLines(c, lines).range == RunRange(newStart, NewCount(lines))
    ensures n in ReadLines(c, lines).c.text <==> n in c.text || newStart <= n < newStart + NewCount(lines)
    ensures ReadLines(c, lines).c.ranges == c.ranges
  {
    if lines != [] {
      LinesAreARun(c, lines[..|lines| - 1], oldStart, newStart, n);
    }
  }

  /** The ranges of the hunks cover exactly the lines whose text the hunks have. */
  lemma {:induction false} RangesAreTheLines(hunks: seq<DiffHunk>, n: int)
    requires forall k :: 0 <= k < |hunks| ==> WellNumbered(hunks[k])
    ensures Covers(ReadHunks(hunks).ranges, n) <==> n in ReadHunks(hunks).text
  {
    if hunks != [] {
      var front, last := hunks[..|hunks| - 1], hunks[|hunks| - 1];
      RangesAreTheLines(front, n);
      LinesAreARun(ReadHunks(front), last.lines, last.oldStart, last.newStart, n);
      var range := RunRange(last.newStart, NewCount(last.lines));
      if range.Some? {
        SnocCovers(ReadHunks(front).ranges, range.value, n);
      }
    }
  }

  // ------------------------------------------------------------------ what is printed

  function Numbers(out: seq<Out>): seq<int> {
    if out == [] then []
    else
      var last := out[|out| - 1];
      if last.Line? then Numbers(out[..|out| - 1]) + [last.n] else Numbers(out[..|out| - 1])
  }

  lemma {:induction false} NumbersConcat(a: seq<Out>, b: seq<Out>)
    ensures Numbers(a + b) == Numbers(a) + Numbers(b)
  {
    if b == [] {
      assert a + b == a;
    } else {
      NumbersConcat(a, b[..|b| - 1]);
      assert (a + b)[..|a + b| - 1] == a + b[..|b| - 1];
    }
  }

  lemma {:induction false} DeletedHaveNone(gone: seq<string>)
    ensures Numbers(MapSeq(AsDeleted, gone)) == []
  {
    if gone != [] {
      var front := gone[..|gone| - 1];
      DeletedHaveNone(front);
      assert MapSeq(AsDeleted, gone)[..|gone| - 1] == MapSeq(AsDeleted, front);
    }
  }

  lemma LineNumber(v: View, n: int)
    ensures Numbers(PrintLine(v, n)) == if Known(v, n).Some? then [n] else []
  {
    DeletedHaveNone(GoneBefore(v, n));
    if Known(v, n).Some? {
      NumbersConcat(MapSeq(AsDeleted, GoneBefore(v, n)), [Shown(v, n, Known(v, n).value)]);
      assert [Shown(v, n, Known(v, n).value)][..0] == [];
    }
  }

  ghost predicate Increasing(s: seq<int>) {
    forall i, j :: 0 <= i < j < |s| ==> s[i] < s[j]
  }

  /** `s` lists, in order, the numbers below `below` that `p` holds of. */
  ghost predicate Lists(s: seq<int>, below: int, p: int -> bool) {
    Increasing(s) && forall n: int :: n in s <==> n < below && p(n)
  }

  function KnownIn(v: View, start: int): int -> bool {
    n => start <= n && Known(v, n).Some?
  }

  lemma {:induction false} NumbersUpTo(v: View, start: int, next: int)
    requires start <= next
    ensures Lists(Numbers(PrintUpTo(v, start, next)), next, KnownIn(v, start))
    decreases next - start
  {
    if start < next {
      NumbersUpTo(v, start, next - 1);
      NumbersConcat(PrintUpTo(v, start, next - 1), PrintLine(v, next - 1));
      LineNumber(v, next - 1);
      ListsSnoc(Numbers(PrintUpTo(v, start, next - 1)), next - 1, KnownIn(v, start));
    }
  }

  lemma ListsSnoc(s: seq<int>, n: int, p: int -> bool)
    requires Lists(s, n, p)
    ensures Lists(if p(n) then s + [n] else s, n + 1, p)
  {
    assert forall k :: 0 <= k < |s| ==> s[k] in s;
  }

  /** A line of one of the first `n` windows whose text is known. */
  ghost predicate Printed(v: View, windows: seq<Range>, n: nat, x: int)
    requires n <= |windows|
  {
    Known(v, x).Some? && exists k :: 0 <= k < n && In(windows[k], x)
  }

  ghost predicate ListsPrinted(s: seq<int>, v: View, windows: seq<Range>, n: nat)
    requires n <= |windows|
  {
    Increasing(s) && forall x: int :: x in s <==> Printed(v, windows, n, x)
  }

  lemma WindowNumbers(v: View, w: Range)
    ensures Increasing(Numbers(PrintWindow(v, w)))
    ensures forall x: int :: x in Numbers(PrintWindow(v, w)) <==> In(w, x) && Known(v, x).Some?
  {
    if w.start <= w.end + 1 {
      NumbersUpTo(v, w.start, w.end + 1);
      assert forall x: int :: KnownIn(v, w.start)(x) <==> w.start <= x && Known(v, x).Some?;
    }
  }

  lemma {:induction false} WindowsNumbers(v: View, heading: Out, windows: seq<Range>, n: nat)
    requires heading.Heading? && Apart(windows) && n <= |windows|
    ensures ListsPrinted(Numbers(PrintWindows(v, heading, windows, n)), v, windows, n)
    decreases n
  {
    if n == 0 {
      assert [heading][..0] == [];
    } else {
      WindowsNumbers(v, heading, windows, n - 1);
      var before, w := PrintWindows(v, heading, windows, n - 1), windows[n - 1];
      assert Numbers(before + [Gap]) == Numbers(before) by {
        assert (before + [Gap])[..|before|] == before;
      }
      NumbersConcat(if n > 1 then before + [Gap] else before, PrintWindow(v, w));
      WindowNumbers(v, w);
      ListsJoin(Numbers(before), Numbers(PrintWindow(v, w)), v, windows, n);
    }
  }

  lemma ListsJoin(s: seq<int>, t: seq<int>, v: View, windows: seq<Range>, n: nat)
    requires Apart(windows) && 0 < n <= |windows| && ListsPrinted(s, v, windows, n - 1)
    requires Increasing(t) && forall x: int :: x in t <==> In(windows[n - 1], x) && Known(v, x).Some?
    ensures ListsPrinted(s + t, v, windows, n)
  {
    forall i, j | 0 <= i < |s| && 0 <= j < |t|
      ensures s[i] < t[j]
    {
      assert s[i] in s && t[j] in t;
      var k :| 0 <= k < n - 1 && In(windows[k], s[i]);
    }
    JoinIncreasing(s, t);
    forall x: int
      ensures x in s + t <==> Printed(v, windows, n, x)
    {
      PrintedSnoc(v, windows, n, x);
    }
  }

  lemma JoinIncreasing(s: seq<int>, t: seq<int>)
    requires Increasing(s) && Increasing(t) && forall i, j :: 0 <= i < |s| && 0 <= j < |t| ==> s[i] < t[j]
    ensures Increasing(s + t)
  {
  }

  lemma PrintedSnoc(v: View, windows: seq<Range>, n: nat, x: int)
    requires 0 < n <= |windows|
    ensures Printed(v, windows, n, x) <==>
            Printed(v, windows, n - 1, x) || (Known(v, x).Some? && In(windows[n - 1], x))
  {
  }

  // ------------------------------------------------------------------ every line says what it should

  /** A printed line is marked as added, redacted or quoted as it should be. */
  ghost predicate Honest(v: View, o: Out) {
    o.Line? ==> Known(v, o.n).Some? && o == Shown(v, o.n, Known(v, o.n).value)
  }

  ghost predicate AllHonest(v: View, out: seq<Out>) {
    forall k :: 0 <= k < |out| ==> Honest(v, out[k])
  }

  lemma HonestConcat(v: View, a: seq<Out>, b: seq<Out>)
    requires AllHonest(v, a) && AllHonest(v, b)
    ensures AllHonest(v, a + b)
  {
  }

  lemma {:induction false} UpToIsHonest(v: View, start: int, next: int)
    ensures AllHonest(v, PrintUpTo(v, start, next))
    decreases next - start
  {
    if start < next {
      UpToIsHonest(v, start, next - 1);
      assert AllHonest(v, PrintLine(v, next - 1));
      HonestConcat(v, PrintUpTo(v, start, next - 1), PrintLine(v, next - 1));
    }
  }

  lemma {:induction false} WindowsAreHonest(v: View, heading: Out, windows: seq<Range>, n: nat)
    requires heading.Heading? && n <= |windows|
    ensures AllHonest(v, PrintWindows(v, heading, windows, n))
    decreases n
  {
    if n > 0 {
      WindowsAreHonest(v, heading, windows, n - 1);
      UpToIsHonest(v, windows[n - 1].start, windows[n - 1].end + 1);
      HonestConcat(v, PrintWindows(v, heading, windows, n - 1), [Gap]);
    }
  }

  lemma {:induction false} LinesOfNumbers(out: seq<Out>, n: int)
    ensures n in Numbers(out) <==> exists k :: 0 <= k < |out| && IsLineOf(out[k], n)
  {
    if out != [] {
      LinesOfNumbers(out[..|out| - 1], n);
    }
  }

  predicate IsLineOf(o: Out, n: int) {
    o.Line? && o.n == n
  }

  /** `shown` has the numbers that are printed, each with the text it is printed with. */
  ghost predicate IsRecordOf(shown: map<int, string>, out: seq<Out>) {
    && (forall n :: n in shown <==> n in Numbers(out))
    && (forall k :: 0 <= k < |out| && out[k].Line? ==> out[k].n in shown && shown[out[k].n] == out[k].text)
  }

  lemma {:induction false} ShownIsRecord(out: seq<Out>)
    requires Increasing(Numbers(out))
    ensures IsRecordOf(ShownLines(out), out)
  {
    if out != [] {
      var front, last := out[..|out| - 1], out[|out| - 1];
      FrontIncreases(out);
      ShownIsRecord(front);
      if last.Line? {
        forall k | 0 <= k < |front| && front[k].Line?
          ensures front[k].n != last.n
        {
          LinesOfNumbers(front, front[k].n);
          assert IsLineOf(front[k], front[k].n);
          EarlierIsLess(Numbers(front), last.n, front[k].n);
        }
      }
    }
  }

  lemma FrontIncreases(out: seq<Out>)
    requires out != [] && Increasing(Numbers(out))
    ensures Increasing(Numbers(out[..|out| - 1]))
  {
    var front, last := out[..|out| - 1], out[|out| - 1];
    if last.Line? {
      assert Numbers(out)[..|Numbers(front)|] == Numbers(front);
    }
  }

  lemma EarlierIsLess(s: seq<int>, last: int, n: int)
    requires Increasing(s + [last]) && n in s
    ensures n < last
  {
    var k :| 0 <= k < |s| && s[k] == n;
    assert (s + [last])[k] == n && (s + [last])[|s|] == last;
  }

  // ------------------------------------------------------------------ the whole file

  ghost predicate FromPatch(hunks: seq<DiffHunk>) {
    forall k :: 0 <= k < |hunks| ==> WellNumbered(hunks[k])
  }

  /** In the range or `context` lines around it, and in the file if there is one. */
  predicate Near(r: Range, head: Option<seq<string>>, context: nat, n: int) {
    if head.None? then In(r, n)
    else r.start - context <= n <= r.end + context && 1 <= n <= |head.value|
  }

  ghost predicate NearSome(ranges: seq<Range>, head: Option<seq<string>>, context: nat, n: int) {
    exists k :: 0 <= k < |ranges| && Near(ranges[k], head, context, n)
  }

  lemma WidenedCovers(c: Collected, head: Option<seq<string>>, context: nat, n: int)
    ensures Covers(Widened(c, head, context), n) <==> NearSome(c.ranges, head, context, n)
  {
    forall k | 0 <= k < |c.ranges|
      ensures In(Widened(c, head, context)[k], n) <==> Near(c.ranges[k], head, context, n)
    {
    }
  }

  lemma StartsAreOrdered()
    ensures IsOrder(StartsBefore)
  {
  }

  /** The windows are in order, apart, and hold exactly the lines near a hunk. */
  lemma WindowsAreExact(c: Collected, head: Option<seq<string>>, context: nat)
    ensures Apart(Windows(c, head, context))
    ensures forall n :: Covers(Windows(c, head, context), n) <==> NearSome(c.ranges, head, context, n)
  {
    var widened := Widened(c, head, context);
    StartsAreOrdered();
    SortSorts(widened, StartsBefore);
    MergeIsExact(Sort(widened, StartsBefore));
    forall n: int
      ensures Covers(Windows(c, head, context), n) <==> NearSome(c.ranges, head, context, n)
    {
      SortingCovers(widened, n);
      WidenedCovers(c, head, context, n);
    }
  }

  /** Every line of a window has a text: the patch's, or the file's. */
  lemma NearIsKnown(hunks: seq<DiffHunk>, head: Option<seq<string>>, secret: set<int>, context: nat, n: int)
    requires FromPatch(hunks)
    ensures NearSome(ReadHunks(hunks).ranges, head, context, n) ==> Known(View(ReadHunks(hunks), head, secret), n).Some?
  {
    if head.None? && NearSome(ReadHunks(hunks).ranges, head, context, n) {
      RangesAreTheLines(hunks, n);
      var k :| 0 <= k < |ReadHunks(hunks).ranges| && Near(ReadHunks(hunks).ranges[k], head, context, n);
      assert In(ReadHunks(hunks).ranges[k], n);
    }
  }

  function ViewOf(file: PromptFile, hunks: seq<DiffHunk>, secret: set<int>): View {
    View(ReadHunks(hunks), file.headLines, secret)
  }

  lemma PrintedNumbers(v: View, heading: Out, windows: seq<Range>)
    requires heading.Heading? && Apart(windows)
    ensures ListsPrinted(Numbers(PrintFile(v, heading, windows)), v, windows, |windows|)
    ensures AllHonest(v, PrintFile(v, heading, windows))
  {
    WindowsNumbers(v, heading, windows, |windows|);
    WindowsAreHonest(v, heading, windows, |windows|);
    NumbersConcat(PrintWindows(v, heading, windows, |windows|), MapSeq(AsDeleted, v.c.trailing));
    DeletedHaveNone(v.c.trailing);
    HonestConcat(v, PrintWindows(v, heading, windows, |windows|), MapSeq(AsDeleted, v.c.trailing));
  }

  /** The numbers printed strictly increase and are exactly the lines near a hunk. */
  lemma PrintsLinesNearHunks(file: PromptFile, hunks: seq<DiffHunk>, secret: set<int>, context: nat)
    requires FromPatch(hunks)
    ensures var numbers := Numbers(Render(file, hunks, secret, context).out);
            Increasing(numbers) &&
            forall n :: n in numbers <==> NearSome(ReadHunks(hunks).ranges, file.headLines, context, n)
  {
    var v, heading := ViewOf(file, hunks, secret), Heading(file.path, file.status);
    var windows := Windows(v.c, file.headLines, context);
    WindowsAreExact(v.c, file.headLines, context);
    PrintedNumbers(v, heading, windows);
    forall n: int
      ensures Printed(v, windows, |windows|, n) <==> NearSome(v.c.ranges, file.headLines, context, n)
    {
      NearIsKnown(hunks, file.headLines, secret, context, n);
      assert Covers(windows, n) <==> NearSome(v.c.ranges, file.headLines, context, n);
    }
  }

  /** No printed line with a flagged number shows anything but the redaction. */
  ghost predicate HidesFlagged(out: seq<Out>, secret: set<int>) {
    forall k :: 0 <= k < |out| && out[k].Line? && out[k].n in secret ==> out[k].text == REDACTED
  }

  /** A secret line shows only the redaction; `lines` records exactly what is printed. */
  lemma PrintsWhatItRecords(file: PromptFile, hunks: seq<DiffHunk>, secret: set<int>, context: nat)
    requires FromPatch(hunks)
    ensures var r := Render(file, hunks, secret, context);
            IsRecordOf(r.lines, r.out) && AllHonest(ViewOf(file, hunks, secret), r.out) && HidesFlagged(r.out, secret)
    ensures var lines := Render(file, hunks, secret, context).lines;
            forall n :: n in lines && n in secret ==> lines[n] == REDACTED
  {
    var v, heading := ViewOf(file, hunks, secret), Heading(file.path, file.status);
    var r := Render(file, hunks, secret, context);
    WindowsAreExact(v.c, file.headLines, context);
    PrintedNumbers(v, heading, Windows(v.c, file.headLines, context));
    ShownIsRecord(r.out);
    forall n | n in r.lines && n in secret
      ensures r.lines[n] == REDACTED
    {
      LinesOfNumbers(r.out, n);
      var k :| 0 <= k < |r.out| && IsLineOf(r.out[k], n);
      assert Honest(v, r.out[k]);
    }
  }

  // ------------------------------------------------------------------ what is quoted as it is

  /** The item shows the text `t` as it is. */
  predicate Quotes(o: Out, t: string) {
    match o
    case Deleted(gone) => gone == t
    case Line(_, _, text) => text == t
    case _ => false
  }

  ghost predicate QuotesSome(out: seq<Out>, t: string) {
    exists k :: 0 <= k < |out| && Quotes(out[k], t)
  }

  lemma QuotesConcat(a: seq<Out>, b: seq<Out>, t: string)
    ensures QuotesSome(a + b, t) <==> QuotesSome(a, t) || QuotesSome(b, t)
  {
    if QuotesSome(a, t) {
      var k :| 0 <= k < |a| && Quotes(a[k], t);
      assert Quotes((a + b)[k], t);
    }
    if QuotesSome(b, t) {
      var k :| 0 <= k < |b| && Quotes(b[k], t);
      assert Quotes((a + b)[|a| + k], t);
    }
  }

  lemma QuotesDeleted(gone: seq<string>, t: string)
    ensures QuotesSome(MapSeq(AsDeleted, gone), t) <==> t in gone
  {
    if t in gone {
      var k :| 0 <= k < |gone| && gone[k] == t;
      assert Quotes(MapSeq(AsDeleted, gone)[k], t);
    }
  }

  /** The line numbered n, or a line deleted before it, has the text `t` and nothing hides it. */
  predicate QuotedAt(v: View, n: int, t: string) {
    t in GoneBefore(v, n) || (n !in v.secret && Known(v, n) == Some(t))
  }

  lemma LineQuotes(v: View, n: int, t: string)
    requires t != REDACTED
    ensures QuotesSome(PrintLine(v, n), t) <==> QuotedAt(v, n, t)
  {
    QuotesDeleted(GoneBefore(v, n), t);
    if Known(v, n).Some? {
      var line := Shown(v, n, Known(v, n).value);
      QuotesConcat(MapSeq(AsDeleted, GoneBefore(v, n)), [line], t);
      assert QuotesSome([line], t) <==> Quotes(line, t) by {
        assert [line][0] == line;
      }
    }
  }

  lemma {:induction false} UpToQuotes(v: View, start: int, next: int, t: string)
    requires t != REDACTED
    ensures QuotesSome(PrintUpTo(v, start, next), t) <==> exists n :: start <= n < next && QuotedAt(v, n, t)
    decreases next - start
  {
    if start < next {
      UpToQuotes(v, start, next - 1, t);
      LineQuotes(v, next - 1, t);
      hide PrintLine, QuotedAt, QuotesSome;
      QuotesConcat(PrintUpTo(v, start, next - 1), PrintLine(v, next - 1), t);
    }
  }

  ghost predicate QuotedWithin(v: View, windows: seq<Range>, n: nat, t: string)
    requires n <= |windows|
  {
    exists k, x :: 0 <= k < n && In(windows[k], x) && QuotedAt(v, x, t)
  }

  lemma WindowQuotes(v: View, w: Range, t: string)
    requires t != REDACTED
    ensures QuotesSome(PrintWindow(v, w), t) <==> exists x :: In(w, x) && QuotedAt(v, x, t)
  {
    UpToQuotes(v, w.start, w.end + 1, t);
    hide QuotedAt;
    if x :| In(w, x) && QuotedAt(v, x, t) {
      assert w.start <= x < w.end + 1;
    }
    if x :| w.start <= x < w.end + 1 && QuotedAt(v, x, t) {
      assert In(w, x);
    }
  }

  lemma {:induction false} WindowsQuote(v: View, heading: Out, windows: seq<Range>, n: nat, t: string)
    requires heading.Heading? && n <= |windows| && t != REDACTED
    ensures QuotesSome(PrintWindows(v, heading, windows, n), t) <==> QuotedWithin(v, windows, n, t)
    decreases n
  {
    if n == 0 {
      assert !Quotes(heading, t);
    } else {
      var before := PrintWindows(v, heading, windows, n - 1);
      var start := if n > 1 then before + [Gap] else before;
      WindowsQuote(v, heading, windows, n - 1, t);
      WindowQuotes(v, windows[n - 1], t);
      QuotesConcat(before, [Gap], t);
      assert !QuotesSome([Gap], t);
      QuotesConcat(start, PrintWindow(v, windows[n - 1]), t);
      hide QuotesSome, QuotedAt, PrintWindow;
      WithinSnoc(v, windows, n, t);
    }
  }

  lemma WithinSnoc(v: View, windows: seq<Range>, n: nat, t: string)
    requires 0 < n <= |windows|
    ensures QuotedWithin(v, windows, n, t) <==>
            QuotedWithin(v, windows, n - 1, t) || exists x :: In(windows[n - 1], x) && QuotedAt(v, x, t)
  {
    hide QuotedAt;
  }

  /** Exactly when a text is sent as it is, as the whole of a printed line: an unflagged line near a hunk
      has it, or a deleted line printed before a line near a hunk or at the end. Whether it is also part
      of some longer line that is printed is not said. */
  lemma SentAsItIsIff(file: PromptFile, hunks: seq<DiffHunk>, secret: set<int>, context: nat, t: string)
    requires t != REDACTED
    ensures var v := ViewOf(file, hunks, secret);
            QuotesSome(Render(file, hunks, secret, context).out, t) <==>
            t in v.c.trailing || exists n :: NearSome(v.c.ranges, file.headLines, context, n) && QuotedAt(v, n, t)
  {
    var v, heading := ViewOf(file, hunks, secret), Heading(file.path, file.status);
    var windows := Windows(v.c, file.headLines, context);
    WindowsAreExact(v.c, file.headLines, context);
    WindowsQuote(v, heading, windows, |windows|, t);
    QuotesDeleted(v.c.trailing, t);
    QuotesConcat(PrintWindows(v, heading, windows, |windows|), MapSeq(AsDeleted, v.c.trailing), t);
    hide QuotesSome, QuotedAt, NearSome, PrintWindows, Windows, ReadHunks;
    WithinIsCovered(v, windows, t);
  }

  lemma WithinIsCovered(v: View, windows: seq<Range>, t: string)
    ensures QuotedWithin(v, windows, |windows|, t) <==> exists n :: Covers(windows, n) && QuotedAt(v, n, t)
  {
    hide QuotedAt;
    if QuotedWithin(v, windows, |windows|, t) {
      var k, x :| 0 <= k < |windows| && In(windows[k], x) && QuotedAt(v, x, t);
      assert Covers(windows, x);
    }
    if x :| Covers(windows, x) && QuotedAt(v, x, t) {
      var k :| 0 <= k < |windows| && In(windows[k], x);
    }
  }

  /** An added line is printed, once, exactly when the file at hand has that many lines. */
  lemma AddedLinesArePrinted(file: PromptFile, hunks: seq<DiffHunk>, secret: set<int>, context: nat, n: int)
    requires FromPatch(hunks) && HasAdded(AllLines(hunks), n)
    ensures n in Render(file, hunks, secret, context).added
    ensures n in Numbers(Render(file, hunks, secret, context).out) <==>
            (file.headLines.Some? ==> 1 <= n <= |file.headLines.value|)
  {
    var c := ReadHunks(hunks);
    HunksAdd(hunks, n);
    AddedHasText(hunks, n);
    RangesAreTheLines(hunks, n);
    var k :| 0 <= k < |c.ranges| && In(c.ranges[k], n);
    assert (file.headLines.Some? ==> 1 <= n <= |file.headLines.value|) ==> Near(c.ranges[k], file.headLines, context, n);
    PrintsLinesNearHunks(file, hunks, secret, context);
  }

  lemma {:induction false} AddedHasText(hunks: seq<DiffHunk>, n: int)
    ensures n in ReadHunks(hunks).added ==> n in ReadHunks(hunks).text
  {
    if hunks != [] {
      AddedHasText(hunks[..|hunks| - 1], n);
      LinesAddText(ReadHunks(hunks[..|hunks| - 1]), hunks[|hunks| - 1].lines, n);
    }
  }

  lemma {:induction false} LinesAddText(c: Collected, lines: seq<DiffLine>, n: int)
    requires n in c.added ==> n in c.text
    ensures n in ReadLines(c, lines).c.added ==> n in ReadLines(c, lines).c.text
  {
    if lines != [] {
      LinesAddText(c, lines[..|lines| - 1], n);
    }
  }

  /** What a patch parses to is numbered as the lemmas above ask. */
  lemma ParsedIsFromPatch(file: PromptFile)
    ensures FromPatch(PatchHunks(file))
  {
    ParseGivesWellNumberedHunks(if file.patch.Some? then file.patch.value else "");
    assert forall k :: 0 <= k < |PatchHunks(file)| ==> PatchHunks(file)[k] in PatchHunks(file);
  }
}
