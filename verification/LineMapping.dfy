/** Old line to new line through a diff: src/queue/lifecycle/line-mapping.ts. */
module LineMapping {
  import opened Seqs
  import opened DiffParser

  /** A pure insertion (`-12,0`) sits after old line 12. */
  function FirstOld(h: DiffHunk): nat {
    if h.oldCount == 0 then h.oldStart + 1 else h.oldStart
  }

  predicate IsAdd(line: DiffLine) {
    line.kind == Add
  }

  predicate IsDel(line: DiffLine) {
    line.kind == Del
  }

  /** The first line that carries old number l. */
  function LookUp(lines: seq<DiffLine>, l: int): Option<DiffLine> {
    if lines == [] then None
    else
      var earlier := LookUp(lines[..|lines| - 1], l);
      if earlier.Some? then earlier
      else if lines[|lines| - 1].oldLine == Some(l) then Some(lines[|lines| - 1])
      else None
  }

  function Target(line: Option<DiffLine>): Option<int> {
    if line.Some? && line.value.kind == Context && line.value.newLine.Some?
    then Some(line.value.newLine.value)
    else None
  }

  /** Where old line l ends up, given how far the hunks before these shifted it. */
  function MapFrom(hunks: seq<DiffHunk>, l: int, offset: int): Option<int> {
    if hunks == [] then Some(l + offset)
    else
      var h := hunks[0];
      if l < FirstOld(h) then Some(l + offset)
      else if l < FirstOld(h) + h.oldCount then Target(LookUp(h.lines, l))
      else MapFrom(hunks[1..], l, offset + |Filter(h.lines, IsAdd)| - |Filter(h.lines, IsDel)|)
  }

  function Map(hunks: seq<DiffHunk>, l: int): Option<int> {
    MapFrom(hunks, l, 0)
  }

  predicate Survives(hunks: seq<DiffHunk>, first: int, last: int) {
    forall l: int :: first <= l <= last ==> Map(hunks, l).Some?
  }

  /** A range goes through when it is not empty and every line of it does. */
  function MapRange(hunks: seq<DiffHunk>, oldStart: int, oldEnd: int): Option<(int, int)> {
    if oldStart <= oldEnd && Survives(hunks, oldStart, oldEnd)
    then Some((Map(hunks, oldStart).value, Map(hunks, oldEnd).value))
    else None
  }

  lemma {:induction false} FirstMatchStays(lines: seq<DiffLine>, i: nat, l: int)
    requires i <= |lines| && LookUp(lines[..i], l).Some?
    ensures LookUp(lines, l) == LookUp(lines[..i], l)
  {
    if i < |lines| {
      assert lines[..|lines| - 1][..i] == lines[..i];
      FirstMatchStays(lines[..|lines| - 1], i, l);
    } else {
      assert lines[..i] == lines;
    }
  }

  method MapOldLine(hunks: seq<DiffHunk>, oldLine: int) returns (r: Option<int>)
    ensures r == Map(hunks, oldLine)
  {
    var offset := 0;
    for i := 0 to |hunks|
      invariant Map(hunks, oldLine) == MapFrom(hunks[i..], oldLine, offset)
    {
      var hunk := hunks[i];
      var firstOld := if hunk.oldCount == 0 then hunk.oldStart + 1 else hunk.oldStart;
      if oldLine < firstOld {
        return Some(oldLine + offset);
      }
      var lastOld := firstOld + hunk.oldCount - 1;
      if oldLine <= lastOld {
        for j := 0 to |hunk.lines|
          invariant LookUp(hunk.lines[..j], oldLine).None?
        {
          var line := hunk.lines[j];
          assert hunk.lines[..j + 1][..j] == hunk.lines[..j];
          if line.oldLine == Some(oldLine) {
            FirstMatchStays(hunk.lines, j + 1, oldLine);
            return if line.kind == Context && line.newLine.Some? then Some(line.newLine.value) else None;
          }
        }
        assert hunk.lines[..|hunk.lines|] == hunk.lines;
        return None;
      }
      var added := |Filter(hunk.lines, IsAdd)|;
      var deleted := |Filter(hunk.lines, IsDel)|;
      offset := offset + added - deleted;
      assert hunks[i..][1..] == hunks[i + 1..];
    }
    return Some(oldLine + offset);
  }

  method MapLineThroughHunks(hunks: seq<DiffHunk>, oldStart: int, oldEnd: int) returns (r: Option<(int, int)>)
    ensures r == MapRange(hunks, oldStart, oldEnd)
  {
    var start: Option<int> := None;
    var end: Option<int> := None;
    var line := oldStart;
    while line <= oldEnd
      invariant if oldStart <= oldEnd then oldStart <= line <= oldEnd + 1 else line == oldStart
      invariant forall l: int :: oldStart <= l < line ==> Map(hunks, l).Some?
      invariant start == if line == oldStart then None else Map(hunks, oldStart)
      invariant end == if line == oldStart then None else Map(hunks, line - 1)
      decreases oldEnd + 1 - line
    {
      var mapped := MapOldLine(hunks, line);
      if mapped.None? {
        return None;
      }
      if start.None? {
        start := mapped;
      }
      end := mapped;
      line := line + 1;
    }
    return if start.None? || end.None? then None else Some((start.value, end.value));
  }

  // ----- the reference: applying the patch to the old file -----

  function OldTexts(lines: seq<DiffLine>): (r: seq<string>)
    ensures |r| == OldCount(lines)
  {
    if lines == [] then []
    else
      var x := lines[|lines| - 1];
      OldTexts(lines[..|lines| - 1]) + if x.kind == Add then [] else [x.text]
  }

  function NewTexts(lines: seq<DiffLine>): (r: seq<string>)
    ensures |r| == NewCount(lines)
  {
    if lines == [] then []
    else
      var x := lines[|lines| - 1];
      NewTexts(lines[..|lines| - 1]) + if x.kind == Del then [] else [x.text]
  }

  /** Hunks in order, not overlapping, inside a file of n lines, from line `pos` on. */
  predicate Ordered(n: nat, hunks: seq<DiffHunk>, pos: nat) {
    if hunks == [] then pos <= n
    else
      var lo := FirstOld(hunks[0]) - 1;
      pos <= lo && lo + hunks[0].oldCount <= n && Ordered(n, hunks[1..], lo + hunks[0].oldCount)
  }

  /** The old file with every hunk's old side replaced by its new side, from `pos` on. */
  function ApplyFrom(file: seq<string>, hunks: seq<DiffHunk>, pos: nat): seq<string>
    requires Ordered(|file|, hunks, pos)
  {
    if hunks == [] then file[pos..]
    else
      var lo := FirstOld(hunks[0]) - 1;
      file[pos..lo] + NewTexts(hunks[0].lines) + ApplyFrom(file, hunks[1..], lo + hunks[0].oldCount)
  }

  /** The old numbers of the lines after `a` up to `b`. */
  function Kept(a: nat, b: nat): (r: seq<Option<nat>>)
    requires a <= b
    ensures |r| == b - a
  {
    seq(b - a, k requires 0 <= k < b - a => Some(a + 1 + k))
  }

  /** Per new-side line of a hunk, the old line it is a copy of. */
  function HunkOrigins(lines: seq<DiffLine>, first: nat): (r: seq<Option<nat>>)
    ensures |r| == NewCount(lines)
  {
    if lines == [] then []
    else
      var before := lines[..|lines| - 1];
      HunkOrigins(before, first) +
      match lines[|lines| - 1].kind
      case Add => [None]
      case Del => []
      case Context => [Some(first + OldCount(before))]
  }

  /** Per line of the patched file, the old line it is a copy of; None for an added line. */
  function OriginsFrom(n: nat, hunks: seq<DiffHunk>, pos: nat): seq<Option<nat>>
    requires Ordered(n, hunks, pos)
  {
    if hunks == [] then Kept(pos, n)
    else
      var h := hunks[0];
      var lo := FirstOld(h) - 1;
      Kept(pos, lo) + HunkOrigins(h.lines, lo + 1) + OriginsFrom(n, hunks[1..], lo + h.oldCount)
  }

  /** The patch is one of this file: hunks in order, header counts and numbers right,
      old side equal to the file. `newPos` lines of the new file come before. */
  predicate FitsFrom(file: seq<string>, hunks: seq<DiffHunk>, pos: nat, newPos: nat) {
    if hunks == [] then pos <= |file|
    else
      var h := hunks[0];
      var lo := FirstOld(h) - 1;
      && pos <= lo && lo + h.oldCount <= |file|
      && OldCount(h.lines) == h.oldCount
      && WellNumbered(h)
      && OldTexts(h.lines) == file[lo..lo + h.oldCount]
      && h.newStart == newPos + (lo - pos) + (if NewCount(h.lines) == 0 then 0 else 1)
      && FitsFrom(file, hunks[1..], lo + h.oldCount, newPos + (lo - pos) + NewCount(h.lines))
  }

  ghost predicate Fits(file: seq<string>, hunks: seq<DiffHunk>) {
    FitsFrom(file, hunks, 0, 0)
  }

  lemma {:induction false} FitsIsOrdered(file: seq<string>, hunks: seq<DiffHunk>, pos: nat, newPos: nat)
    requires FitsFrom(file, hunks, pos, newPos)
    ensures Ordered(|file|, hunks, pos)
    ensures pos <= |file|
  {
    if hunks != [] {
      var lo := FirstOld(hunks[0]) - 1;
      FitsIsOrdered(file, hunks[1..], lo + hunks[0].oldCount, newPos + (lo - pos) + NewCount(hunks[0].lines));
    }
  }

  ghost function Apply(file: seq<string>, hunks: seq<DiffHunk>): seq<string>
    requires Fits(file, hunks)
  {
    FitsIsOrdered(file, hunks, 0, 0);
    ApplyFrom(file, hunks, 0)
  }

  ghost function Origins(file: seq<string>, hunks: seq<DiffHunk>): seq<Option<nat>>
    requires Fits(file, hunks)
  {
    FitsIsOrdered(file, hunks, 0, 0);
    OriginsFrom(|file|, hunks, 0)
  }

  // ----- one hunk -----

  lemma {:induction false} SideCounts(lines: seq<DiffLine>)
    ensures |Filter(lines, IsAdd)| - |Filter(lines, IsDel)| == NewCount(lines) - OldCount(lines)
  {
    if lines != [] {
      SideCounts(lines[..|lines| - 1]);
    }
  }

  /** In a numbered hunk the look-up finds every old line, and says where its copy is. */
  lemma {:induction false} HunkLookUp(lines: seq<DiffLine>, o: nat, n: nat, l: nat)
    requires Numbered(lines, o, n)
    ensures LookUp(lines, l).Some? <==> o <= l < o + OldCount(lines)
    ensures LookUp(lines, l).Some? ==> LookUp(lines, l).value.kind != Add && LookUp(lines, l).value in lines
                                       && LookUp(lines, l).value.oldLine == Some(l)
    ensures var r := Target(LookUp(lines, l));
            && (r.Some? ==> n <= r.value < n + NewCount(lines) && HunkOrigins(lines, o)[r.value - n] == Some(l))
            && (r.None? ==> Some(l) !in HunkOrigins(lines, o))
  {
    if lines != [] {
      HunkLookUp(lines[..|lines| - 1], o, n, l);
    }
  }

  ghost predicate Increasing(s: seq<Option<nat>>) {
    forall i, j :: 0 <= i < j < |s| && s[i].Some? && s[j].Some? ==> s[i].value < s[j].value
  }

  /** Every origin in `s` is a line after `lo`, up to `hi`. */
  ghost predicate Within(s: seq<Option<nat>>, lo: nat, hi: nat) {
    forall i :: 0 <= i < |s| && s[i].Some? ==> lo < s[i].value <= hi
  }

  lemma IncreasingConcat(a: seq<Option<nat>>, b: seq<Option<nat>>, lo: nat, mid: nat, hi: nat)
    requires lo <= mid <= hi
    requires Increasing(a) && Within(a, lo, mid)
    requires Increasing(b) && Within(b, mid, hi)
    ensures Increasing(a + b) && Within(a + b, lo, hi)
  {
  }

  lemma {:induction false} OriginsUnfold(n: nat, hunks: seq<DiffHunk>, pos: nat)
    requires Ordered(n, hunks, pos) && hunks != []
    ensures var h := hunks[0];
            var lo := FirstOld(h) - 1;
            OriginsFrom(n, hunks, pos)
            == (Kept(pos, lo) + HunkOrigins(h.lines, lo + 1)) + OriginsFrom(n, hunks[1..], lo + h.oldCount)
  {
  }

  lemma {:induction false} HunkOriginsIncrease(lines: seq<DiffLine>, lo: nat)
    ensures Increasing(HunkOrigins(lines, lo + 1))
    ensures Within(HunkOrigins(lines, lo + 1), lo, lo + OldCount(lines))
  {
    if lines != [] {
      HunkOriginsIncrease(lines[..|lines| - 1], lo);
    }
  }

  /** `texts` line by line has the text of the old line it comes from. */
  ghost predicate Copies(texts: seq<string>, origins: seq<Option<nat>>, file: seq<string>) {
    && |texts| == |origins|
    && forall i :: 0 <= i < |texts| && origins[i].Some? ==>
         1 <= origins[i].value <= |file| && texts[i] == file[origins[i].value - 1]
  }

  lemma CopiesConcat(t1: seq<string>, o1: seq<Option<nat>>, t2: seq<string>, o2: seq<Option<nat>>, file: seq<string>)
    requires Copies(t1, o1, file) && Copies(t2, o2, file)
    ensures Copies(t1 + t2, o1 + o2, file)
  {
  }

  lemma {:induction false} HunkCopies(lines: seq<DiffLine>, lo: nat, file: seq<string>)
    requires TextsAt(file, lo, OldTexts(lines))
    ensures Copies(NewTexts(lines), HunkOrigins(lines, lo + 1), file)
  {
    if lines != [] {
      var before, x := lines[..|lines| - 1], lines[|lines| - 1];
      TextsPrefix(file, lo, OldTexts(before), OldTexts(lines));
      HunkCopies(before, lo, file);
      if x.kind == Context {
        assert file[lo + OldCount(before)] == OldTexts(lines)[OldCount(before)] == x.text;
        CopiesConcat(NewTexts(before), HunkOrigins(before, lo + 1), [x.text], [Some(lo + 1 + OldCount(before))], file);
      } else if x.kind == Add {
        CopiesConcat(NewTexts(before), HunkOrigins(before, lo + 1), [x.text], [None], file);
      }
    }
  }

  /** `texts` stands in the file after line lo. */
  ghost predicate TextsAt(file: seq<string>, lo: nat, texts: seq<string>) {
    lo + |texts| <= |file| && forall i :: 0 <= i < |texts| ==> file[lo + i] == texts[i]
  }

  lemma TextsPrefix(file: seq<string>, lo: nat, a: seq<string>, b: seq<string>)
    requires TextsAt(file, lo, b) && a <= b
    ensures TextsAt(file, lo, a)
  {
  }

  // ----- the whole patch -----

  lemma {:induction false} OriginsIncrease(n: nat, hunks: seq<DiffHunk>, pos: nat)
    requires Ordered(n, hunks, pos)
    requires forall h :: h in hunks ==> OldCount(h.lines) == h.oldCount
    ensures pos <= n
    ensures Increasing(OriginsFrom(n, hunks, pos)) && Within(OriginsFrom(n, hunks, pos), pos, n)
  {
    if hunks != [] {
      var h := hunks[0];
      var lo := FirstOld(h) - 1;
      var kept, copied := Kept(pos, lo), HunkOrigins(h.lines, lo + 1);
      var rest := OriginsFrom(n, hunks[1..], lo + h.oldCount);
      OriginsIncrease(n, hunks[1..], lo + h.oldCount);
      HunkOriginsIncrease(h.lines, lo);
      KeptIncreases(pos, lo);
      assert h in hunks;
      OriginsUnfold(n, hunks, pos);
      hide Increasing, Within, OriginsFrom, Kept, HunkOrigins;
      IncreasingConcat(kept, copied, pos, lo, lo + h.oldCount);
      IncreasingConcat(kept + copied, rest, pos, lo + h.oldCount, n);
    }
  }

  lemma {:induction false} FitsCounts(file: seq<string>, hunks: seq<DiffHunk>, pos: nat, newPos: nat)
    requires FitsFrom(file, hunks, pos, newPos)
    ensures forall h :: h in hunks ==> OldCount(h.lines) == h.oldCount
  {
    if hunks != [] {
      var lo := FirstOld(hunks[0]) - 1;
      FitsCounts(file, hunks[1..], lo + hunks[0].oldCount, newPos + (lo - pos) + NewCount(hunks[0].lines));
    }
  }

  lemma KeptIncreases(a: nat, b: nat)
    requires a <= b
    ensures Increasing(Kept(a, b)) && Within(Kept(a, b), a, b)
  {
  }

  /** Every copied line of the patched file has the text of its old line. */
  lemma {:induction false} CopiesKeepText(file: seq<string>, hunks: seq<DiffHunk>, pos: nat, newPos: nat)
    requires FitsFrom(file, hunks, pos, newPos)
    requires Ordered(|file|, hunks, pos)
    ensures Copies(ApplyFrom(file, hunks, pos), OriginsFrom(|file|, hunks, pos), file)
  {
    if hunks != [] {
      var h := hunks[0];
      var lo := FirstOld(h) - 1;
      CopiesKeepText(file, hunks[1..], lo + h.oldCount, newPos + (lo - pos) + NewCount(h.lines));
      assert TextsAt(file, lo, OldTexts(h.lines));
      OriginsUnfold(|file|, hunks, pos);
      hide Copies, Fits, NewTexts, OldTexts, HunkOrigins, Kept;
      HunkCopies(h.lines, lo, file);
      KeptCopies(file, pos, lo);
      CopiesConcat(file[pos..lo], Kept(pos, lo), NewTexts(h.lines), HunkOrigins(h.lines, lo + 1), file);
      CopiesConcat(file[pos..lo] + NewTexts(h.lines), Kept(pos, lo) + HunkOrigins(h.lines, lo + 1),
                   ApplyFrom(file, hunks[1..], lo + h.oldCount), OriginsFrom(|file|, hunks[1..], lo + h.oldCount), file);
    } else {
      KeptCopies(file, pos, |file|);
    }
  }

  lemma KeptCopies(file: seq<string>, a: nat, b: nat)
    requires a <= b <= |file|
    ensures Copies(file[a..b], Kept(a, b), file)
  {
  }

  /** m is where `origins`, which start after new line `before`, have old line l; None if nowhere. */
  ghost predicate LandsAt(origins: seq<Option<nat>>, before: int, m: Option<int>, l: nat) {
    && (m.Some? ==> before < m.value <= before + |origins| && origins[m.value - before - 1] == Some(l))
    && (m.None? ==> Some(l) !in origins)
  }

  lemma LandsLeft(a: seq<Option<nat>>, b: seq<Option<nat>>, before: int, m: Option<int>, l: nat)
    requires LandsAt(a, before, m, l) && (m.None? ==> Some(l) !in b)
    ensures LandsAt(a + b, before, m, l)
  {
  }

  lemma LandsRight(a: seq<Option<nat>>, b: seq<Option<nat>>, before: int, m: Option<int>, l: nat)
    requires LandsAt(b, before + |a|, m, l) && Some(l) !in a
    ensures LandsAt(a + b, before, m, l)
  {
  }

  lemma OutsideWithin(s: seq<Option<nat>>, lo: nat, hi: nat, l: nat)
    requires Within(s, lo, hi) && !(lo < l <= hi)
    ensures Some(l) !in s
  {
  }

  /** The mapping finds exactly the copy of line l in the patched file, if there is one. */
  lemma {:induction false} MapFindsCopy(file: seq<string>, hunks: seq<DiffHunk>, pos: nat, newPos: nat, l: nat)
    requires FitsFrom(file, hunks, pos, newPos)
    requires Ordered(|file|, hunks, pos)
    requires pos < l <= |file|
    ensures LandsAt(OriginsFrom(|file|, hunks, pos), newPos, MapFrom(hunks, l, newPos - pos), l)
  {
    if hunks == [] {
      assert Kept(pos, |file|)[l - pos - 1] == Some(l);
    } else {
      var h := hunks[0];
      var lo := FirstOld(h) - 1;
      FitsCounts(file, hunks, pos, newPos);
      OriginsIncrease(|file|, hunks[1..], lo + h.oldCount);
      if l > lo + h.oldCount {
        MapFindsCopy(file, hunks[1..], lo + h.oldCount, newPos + (lo - pos) + NewCount(h.lines), l);
      }
      MapFindsCopyStep(file, hunks, pos, newPos, l, OriginsFrom(|file|, hunks[1..], lo + h.oldCount));
      OriginsUnfold(|file|, hunks, pos);
    }
  }

  lemma {:induction false} MapFindsCopyStep(file: seq<string>, hunks: seq<DiffHunk>, pos: nat, newPos: nat, l: nat,
                                            rest: seq<Option<nat>>)
    requires FitsFrom(file, hunks, pos, newPos) && hunks != []
    requires pos < l <= |file|
    requires var h := hunks[0];
             var lo := FirstOld(h) - 1;
             var newPos' := newPos + (lo - pos) + NewCount(h.lines);
             && Within(rest, lo + h.oldCount, |file|)
             && (l > lo + h.oldCount ==> LandsAt(rest, newPos', MapFrom(hunks[1..], l, newPos' - (lo + h.oldCount)), l))
    ensures var h := hunks[0];
            var lo := FirstOld(h) - 1;
            LandsAt((Kept(pos, lo) + HunkOrigins(h.lines, lo + 1)) + rest, newPos, MapFrom(hunks, l, newPos - pos), l)
  {
    var m := MapFrom(hunks, l, newPos - pos);
    var h := hunks[0];
    var lo := FirstOld(h) - 1;
    var kept, copied := Kept(pos, lo), HunkOrigins(h.lines, lo + 1);
    hide FitsFrom, LandsAt, Kept, HunkOrigins, Within, Increasing;
    if l <= lo {
      LandsInKept(hunks, pos, newPos, l);
      LandsLeft(kept, copied, newPos, m, l);
      LandsLeft(kept + copied, rest, newPos, m, l);
    } else if l <= lo + h.oldCount {
      LandsInHunk(file, hunks, pos, newPos, l);
      KeptIncreases(pos, lo);
      OutsideWithin(kept, pos, lo, l);
      LandsRight(kept, copied, newPos, m, l);
      OutsideWithin(rest, lo + h.oldCount, |file|, l);
      LandsLeft(kept + copied, rest, newPos, m, l);
    } else {
      FirstFits(file, hunks, pos, newPos);
      MapSkipsHunk(hunks, pos, newPos, l);
      NotInHunk(h.lines, lo, h.oldCount, l);
      AfterKept(pos, lo, l);
      LandsPast(kept, copied, rest, newPos, m, l);
    }
  }

  /** Up to the first hunk nothing moves but by the offset so far. */
  lemma LandsInKept(hunks: seq<DiffHunk>, pos: nat, newPos: nat, l: nat)
    requires hunks != [] && pos < l <= FirstOld(hunks[0]) - 1
    ensures LandsAt(Kept(pos, FirstOld(hunks[0]) - 1), newPos, MapFrom(hunks, l, newPos - pos), l)
  {
    assert Kept(pos, FirstOld(hunks[0]) - 1)[l - pos - 1] == Some(l);
  }

  /** Inside the first hunk the numbers on its lines decide. */
  lemma LandsInHunk(file: seq<string>, hunks: seq<DiffHunk>, pos: nat, newPos: nat, l: nat)
    requires FitsFrom(file, hunks, pos, newPos) && hunks != []
    requires FirstOld(hunks[0]) - 1 < l <= FirstOld(hunks[0]) - 1 + hunks[0].oldCount
    ensures var h := hunks[0];
            var lo := FirstOld(h) - 1;
            pos <= lo &&
            LandsAt(HunkOrigins(h.lines, lo + 1), newPos + |Kept(pos, lo)|, MapFrom(hunks, l, newPos - pos), l)
  {
    HunkLookUp(hunks[0].lines, hunks[0].oldStart, hunks[0].newStart, l);
  }

  /** Past the first hunk the rest decides, at the offset it leaves. */
  lemma LandsPast(
    kept: seq<Option<nat>>, copied: seq<Option<nat>>, rest: seq<Option<nat>>, before: int, m: Option<int>, l: nat)
    requires LandsAt(rest, before + |kept| + |copied|, m, l) && Some(l) !in kept && Some(l) !in copied
    ensures LandsAt((kept + copied) + rest, before, m, l)
  {
    LandsRight(copied, rest, before + |kept|, m, l);
    LandsRight(kept, copied + rest, before, m, l);
    assert (kept + copied) + rest == kept + (copied + rest);
  }

  lemma FirstFits(file: seq<string>, hunks: seq<DiffHunk>, pos: nat, newPos: nat)
    requires FitsFrom(file, hunks, pos, newPos) && hunks != []
    ensures pos <= FirstOld(hunks[0]) - 1 && OldCount(hunks[0].lines) == hunks[0].oldCount
  {
  }

  lemma NotInHunk(lines: seq<DiffLine>, lo: nat, count: nat, l: nat)
    requires OldCount(lines) == count && lo + count < l
    ensures Some(l) !in HunkOrigins(lines, lo + 1)
  {
    hide HunkOrigins;
    HunkOriginsIncrease(lines, lo);
    OutsideWithin(HunkOrigins(lines, lo + 1), lo, lo + count, l);
  }

  /** Past a hunk only its lines added and deleted move the offset. */
  lemma MapSkipsHunk(hunks: seq<DiffHunk>, pos: nat, newPos: nat, l: nat)
    requires hunks != [] && FirstOld(hunks[0]) - 1 + hunks[0].oldCount < l
    requires OldCount(hunks[0].lines) == hunks[0].oldCount
    ensures var h := hunks[0];
            var lo := FirstOld(h) - 1;
            MapFrom(hunks, l, newPos - pos) ==
            MapFrom(hunks[1..], l, newPos + (lo - pos) + NewCount(h.lines) - (lo + h.oldCount))
  {
    SideCounts(hunks[0].lines);
  }

  lemma AfterKept(a: nat, b: nat, l: nat)
    requires a <= b < l
    ensures Some(l) !in Kept(a, b)
  {
  }

  /** Some hunk deletes old line l. */
  ghost predicate Deletes(hunks: seq<DiffHunk>, l: int) {
    exists k :: 0 <= k < |hunks| && DeletesLine(hunks[k], l)
  }

  ghost predicate DeletesLine(h: DiffHunk, l: int) {
    exists x :: x in h.lines && x.kind == Del && x.oldLine == Some(l)
  }

  lemma DeletesSplit(hunks: seq<DiffHunk>, l: int)
    requires hunks != []
    ensures Deletes(hunks, l) <==> DeletesLine(hunks[0], l) || Deletes(hunks[1..], l)
  {
    if Deletes(hunks, l) && !DeletesLine(hunks[0], l) {
      var k :| 0 <= k < |hunks| && DeletesLine(hunks[k], l);
      assert hunks[1..][k - 1] == hunks[k];
    }
    if Deletes(hunks[1..], l) {
      var k :| 0 <= k < |hunks[1..]| && DeletesLine(hunks[1..][k], l);
      assert hunks[k + 1] == hunks[1..][k];
    }
  }

  lemma {:induction false} NumbersInRange(lines: seq<DiffLine>, o: nat, n: nat, x: DiffLine)
    requires Numbered(lines, o, n) && x in lines && x.oldLine.Some?
    ensures o <= x.oldLine.value < o + OldCount(lines)
    ensures LookUp(lines, x.oldLine.value) == Some(x)
    ensures x.kind == Context ==> x.newLine.Some?
  {
    HunkLookUp(lines[..|lines| - 1], o, n, x.oldLine.value);
    if x in lines[..|lines| - 1] {
      NumbersInRange(lines[..|lines| - 1], o, n, x);
    }
  }

  /** Hunks delete nothing at or before the line they start after. */
  lemma {:induction false} NothingDeletedBefore(file: seq<string>, hunks: seq<DiffHunk>, pos: nat, newPos: nat, l: nat)
    requires FitsFrom(file, hunks, pos, newPos)
    requires l <= pos
    ensures !Deletes(hunks, l)
  {
    if hunks != [] {
      var h := hunks[0];
      var lo := FirstOld(h) - 1;
      forall x | x in h.lines && x.kind == Del
        ensures x.oldLine != Some(l)
      {
        if x.oldLine.Some? { NumbersInRange(h.lines, h.oldStart, h.newStart, x); }
      }
      NothingDeletedBefore(file, hunks[1..], lo + h.oldCount, newPos + (lo - pos) + NewCount(h.lines), l);
      DeletesSplit(hunks, l);
    }
  }

  /** A line is lost exactly when a hunk deletes it. */
  lemma {:induction false} LostMeansDeleted(file: seq<string>, hunks: seq<DiffHunk>, pos: nat, newPos: nat, l: nat, offset: int)
    requires FitsFrom(file, hunks, pos, newPos)
    requires pos < l
    ensures MapFrom(hunks, l, offset).None? <==> Deletes(hunks, l)
  {
    if hunks != [] {
      var h := hunks[0];
      var lo := FirstOld(h) - 1;
      var newPos' := newPos + (lo - pos) + NewCount(h.lines);
      DeletesSplit(hunks, l);
      HunkDeletes(h.lines, h.oldStart, h.newStart, l, h);
      hide Deletes, DeletesLine;
      if l <= lo + h.oldCount {
        NothingDeletedBefore(file, hunks[1..], lo + h.oldCount, newPos', l);
      } else {
        LostMeansDeleted(file, hunks[1..], lo + h.oldCount, newPos', l,
                         offset + |Filter(h.lines, IsAdd)| - |Filter(h.lines, IsDel)|);
      }
    }
  }

  /** A hunk deletes line l exactly when l is one of its old lines and not a context line. */
  lemma HunkDeletes(lines: seq<DiffLine>, o: nat, n: nat, l: nat, h: DiffHunk)
    requires Numbered(lines, o, n) && h.lines == lines
    ensures DeletesLine(h, l) <==> LookUp(lines, l).Some? && LookUp(lines, l).value.kind == Del
    ensures LookUp(lines, l).Some? <==> o <= l < o + OldCount(lines)
    ensures LookUp(lines, l).Some? ==> Target(LookUp(lines, l)).None? == (LookUp(lines, l).value.kind == Del)
  {
    HunkLookUp(lines, o, n, l);
    if LookUp(lines, l).Some? {
      NumbersInRange(lines, o, n, LookUp(lines, l).value);
    }
    forall x | x in lines && x.oldLine == Some(l)
      ensures LookUp(lines, l) == Some(x)
    {
      NumbersInRange(lines, o, n, x);
    }
  }

  // ----- main results -----

  /** The mapping refines patch application: line l of the old file is lost exactly when the patch
      deletes it, and otherwise lands on the one line of the patched file that is its copy. */
  lemma MappingRefinesApply(file: seq<string>, hunks: seq<DiffHunk>, l: nat)
    requires Fits(file, hunks) && 1 <= l <= |file|
    ensures |Apply(file, hunks)| == |Origins(file, hunks)|
    ensures Map(hunks, l).None? <==> Deletes(hunks, l)
    ensures Map(hunks, l).None? <==> Some(l) !in Origins(file, hunks)
    ensures Map(hunks, l).Some? ==>
              var m := Map(hunks, l).value;
              && 1 <= m <= |Apply(file, hunks)|
              && Origins(file, hunks)[m - 1] == Some(l)
              && Apply(file, hunks)[m - 1] == file[l - 1]
  {
    FitsIsOrdered(file, hunks, 0, 0);
    MapFindsCopy(file, hunks, 0, 0, l);
    LostMeansDeleted(file, hunks, 0, 0, l, 0);
    CopiesKeepText(file, hunks, 0, 0);
  }

  /** Conversely, every line of the patched file that is a copy is where its old line maps to. */
  lemma EveryCopyIsMapped(file: seq<string>, hunks: seq<DiffHunk>, m: nat)
    requires Fits(file, hunks) && 1 <= m <= |Origins(file, hunks)|
    requires Origins(file, hunks)[m - 1].Some?
    ensures var l := Origins(file, hunks)[m - 1].value;
            1 <= l <= |file| && Map(hunks, l) == Some(m)
  {
    var l := Origins(file, hunks)[m - 1].value;
    FitsIsOrdered(file, hunks, 0, 0);
    FitsCounts(file, hunks, 0, 0);
    OriginsIncrease(|file|, hunks, 0);
    MappingRefinesApply(file, hunks, l);
    assert Origins(file, hunks)[Map(hunks, l).value - 1] == Some(l);
  }

  lemma MappingIncreases(file: seq<string>, hunks: seq<DiffHunk>, l1: nat, l2: nat)
    requires Fits(file, hunks) && 1 <= l1 < l2 <= |file|
    requires Map(hunks, l1).Some? && Map(hunks, l2).Some?
    ensures Map(hunks, l1).value < Map(hunks, l2).value
  {
    FitsIsOrdered(file, hunks, 0, 0);
    FitsCounts(file, hunks, 0, 0);
    OriginsIncrease(|file|, hunks, 0);
    MappingRefinesApply(file, hunks, l1);
    MappingRefinesApply(file, hunks, l2);
    var r := Origins(file, hunks);
    assert r[Map(hunks, l1).value - 1] == Some(l1) && r[Map(hunks, l2).value - 1] == Some(l2);
  }

  /** A non-empty range goes through exactly when no line of it is deleted; it never gets shorter. */
  lemma {:induction false} RangeGoesThrough(file: seq<string>, hunks: seq<DiffHunk>, s: nat, e: nat)
    requires Fits(file, hunks) && 1 <= s <= e <= |file|
    ensures MapRange(hunks, s, e).Some? <==> forall l: int :: s <= l <= e ==> !Deletes(hunks, l)
    ensures MapRange(hunks, s, e).Some? ==>
              var (s', e') := MapRange(hunks, s, e).value;
              && 1 <= s' <= e' <= |Apply(file, hunks)|
              && e' - s' >= e - s
              && forall l: int :: s <= l <= e ==> Map(hunks, l).Some? && s' <= Map(hunks, l).value <= e'
    decreases e - s
  {
    forall l: int | s <= l <= e
      ensures Map(hunks, l).None? <==> Deletes(hunks, l)
    {
      MappingRefinesApply(file, hunks, l);
    }
    if MapRange(hunks, s, e).Some? {
      MappingRefinesApply(file, hunks, s);
      MappingRefinesApply(file, hunks, e);
      if s < e {
        RangeGoesThrough(file, hunks, s, e - 1);
        MappingIncreases(file, hunks, e - 1, e);
      }
    }
  }

  lemma {:induction false} PhantomInHunk(lines: seq<DiffLine>, x: DiffLine, l: int)
    requires x.kind == Context
    ensures |Filter(lines + [x], IsAdd)| == |Filter(lines, IsAdd)|
    ensures |Filter(lines + [x], IsDel)| == |Filter(lines, IsDel)|
    ensures x.oldLine != Some(l) ==> LookUp(lines + [x], l) == LookUp(lines, l)
  {
    FilterSnoc(lines, x, IsAdd);
    FilterSnoc(lines, x, IsDel);
    assert (lines + [x])[..|lines|] == lines;
  }

  /** One more context line on the last hunk, numbered past the header's count, is never looked at. */
  lemma {:induction false} ExtraLineIsHarmless(front: seq<DiffHunk>, last: DiffHunk, x: DiffLine, l: int, offset: int)
    requires x.kind == Context && x.oldLine == Some(last.oldStart + last.oldCount)
    ensures MapFrom(front + [last.(lines := last.lines + [x])], l, offset) == MapFrom(front + [last], l, offset)
  {
    var longer := last.(lines := last.lines + [x]);
    if front == [] {
      PhantomInHunk(last.lines, x, l);
      assert [longer][1..] == [last][1..] == [];
      assert front + [last] == [last] && front + [longer] == [longer];
    } else {
      var h := front[0];
      assert (front + [last])[1..] == front[1..] + [last];
      assert (front + [longer])[1..] == front[1..] + [longer];
      ExtraLineIsHarmless(front[1..], last, x, l, offset + |Filter(h.lines, IsAdd)| - |Filter(h.lines, IsDel)|);
    }
  }

  lemma {:induction false} PhantomIsHarmless(hunks: seq<DiffHunk>, l: int)
    requires hunks != [] ==> OldCount(hunks[|hunks| - 1].lines) == hunks[|hunks| - 1].oldCount
    ensures Map(WithPhantom(hunks), l) == Map(hunks, l)
  {
    if hunks != [] {
      var h := hunks[|hunks| - 1];
      var x := NumberedLine(Context, "", h.oldStart + OldCount(h.lines), h.newStart + NewCount(h.lines));
      ExtraLineIsHarmless(hunks[..|hunks| - 1], h, x, l, 0);
      assert hunks[..|hunks| - 1] + [h] == hunks;
      assert hunks[..|hunks| - 1] + [h.(lines := h.lines + [x])] == WithPhantom(hunks);
    }
  }

  /** A patch text with one more newline at its end maps every line the same way. */
  lemma TrailingNewlineMapsTheSame(hunks: seq<DiffHunk>, l: int)
    requires forall k :: 0 <= k < |hunks| ==> Printable(hunks[k]) && OldCount(hunks[k].lines) == hunks[k].oldCount
    ensures Map(Parse(PrintPatch(hunks) + "\n"), l) == Map(Parse(PrintPatch(hunks)), l) == Map(hunks, l)
  {
    PrintParseRoundTrip(hunks);
    TrailingNewlineAddsOneLine(hunks);
    PhantomIsHarmless(hunks, l);
  }
}
