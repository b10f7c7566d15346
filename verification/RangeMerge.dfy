/** Merging line windows that overlap or touch: src/modules/ai/scan/ai-prompt-builder.ts. */
module RangeMerge {
  import opened Seqs
  import opened Sorting

  /** Lines `start` to `end`, both included; none when `end` is before `start`. */
  datatype Range = Range(start: int, end: int)

  predicate In(r: Range, n: int) {
    r.start <= n <= r.end
  }

  ghost predicate Covers(ranges: seq<Range>, n: int) {
    exists k :: 0 <= k < |ranges| && In(ranges[k], n)
  }

  predicate StartsBefore(a: Range, b: Range) {
    a.start < b.start
  }

  /** A range joins the last window when it reaches it, or opens a new one. */
  function Join(merged: seq<Range>, r: Range): seq<Range> {
    if merged != [] && r.start <= merged[|merged| - 1].end + 1 then
      var last := merged[|merged| - 1];
      merged[|merged| - 1 := Range(last.start, Max(last.end, r.end))]
    else merged + [r]
  }

  function MergeFirst(ranges: seq<Range>, n: nat): seq<Range>
    requires n <= |ranges|
    decreases n
  {
    if n == 0 then [] else Join(MergeFirst(ranges, n - 1), ranges[n - 1])
  }

  /** The windows of `ranges`, which are sorted by their starts. */
  function Merge(ranges: seq<Range>): seq<Range> {
    MergeFirst(ranges, |ranges|)
  }

  method MergeRanges(ranges: seq<Range>) returns (merged: seq<Range>)
    ensures merged == Merge(ranges)
  {
    merged := [];
    var n := 0;
    while n < |ranges|
      invariant n <= |ranges| && merged == MergeFirst(ranges, n)
    {
      var range := ranges[n];
      var last := |merged| - 1;
      if last >= 0 && range.start <= merged[last].end + 1 {
        merged := merged[last := Range(merged[last].start, Max(merged[last].end, range.end))];
      } else {
        merged := merged + [range];
      }
      n := n + 1;
    }
  }

  /** In order, and at least one line apart. */
  ghost predicate Apart(windows: seq<Range>) {
    forall i, j :: 0 <= i < j < |windows| ==>
                     windows[i].start <= windows[j].start && windows[i].end + 1 < windows[j].start
  }

  ghost predicate StartsBy(windows: seq<Range>, start: int) {
    forall i :: 0 <= i < |windows| ==> windows[i].start <= start
  }

  lemma JoinKeepsApart(merged: seq<Range>, r: Range)
    requires Apart(merged) && StartsBy(merged, r.start)
    ensures Apart(Join(merged, r)) && StartsBy(Join(merged, r), r.start)
  {
    if merged != [] {
      var last := merged[|merged| - 1];
      assert forall i :: 0 <= i < |merged| - 1 ==> merged[i].end + 1 < last.start;
    }
  }

  lemma JoinCovers(merged: seq<Range>, r: Range, n: int)
    requires StartsBy(merged, r.start)
    ensures Covers(Join(merged, r), n) <==> Covers(merged, n) || In(r, n)
  {
    var joined := Join(merged, r);
    if Covers(merged, n) {
      var k :| 0 <= k < |merged| && In(merged[k], n);
      assert In(joined[k], n);
    }
    if In(r, n) {
      assert In(joined[|joined| - 1], n);
    }
    if Covers(joined, n) {
      var k :| 0 <= k < |joined| && In(joined[k], n);
      assert (k < |merged| && In(merged[k], n)) || In(r, n);
    }
  }

  lemma {:induction false} MergeFirstIsExact(ranges: seq<Range>, n: nat, x: int)
    requires n <= |ranges| && Sorted(ranges, StartsBefore)
    ensures Apart(MergeFirst(ranges, n))
    ensures forall m :: n <= m < |ranges| ==> StartsBy(MergeFirst(ranges, n), ranges[m].start)
    ensures Covers(MergeFirst(ranges, n), x) <==> Covers(ranges[..n], x)
    decreases n
  {
    if n > 0 {
      MergeFirstIsExact(ranges, n - 1, x);
      var before, r := MergeFirst(ranges, n - 1), ranges[n - 1];
      JoinKeepsApart(before, r);
      JoinCovers(before, r, x);
      SnocCovers(ranges[..n - 1], r, x);
      assert ranges[..n] == ranges[..n - 1] + [r];
      forall m | n <= m < |ranges|
        ensures StartsBy(MergeFirst(ranges, n), ranges[m].start)
      {
        assert !StartsBefore(ranges[m], r);
      }
    }
  }

  lemma SnocCovers(ranges: seq<Range>, r: Range, n: int)
    ensures Covers(ranges + [r], n) <==> Covers(ranges, n) || In(r, n)
  {
    var all := ranges + [r];
    assert all[|ranges|] == r;
    if Covers(ranges, n) {
      var k :| 0 <= k < |ranges| && In(ranges[k], n);
      assert all[k] == ranges[k];
    }
  }

  /** The windows of sorted ranges are apart and cover exactly what the ranges cover. */
  lemma MergeIsExact(ranges: seq<Range>)
    requires Sorted(ranges, StartsBefore)
    ensures Apart(Merge(ranges))
    ensures forall n :: Covers(Merge(ranges), n) <==> Covers(ranges, n)
  {
    assert ranges[..|ranges|] == ranges;
    MergeFirstIsExact(ranges, |ranges|, 0);
    forall n: int
      ensures Covers(Merge(ranges), n) <==> Covers(ranges, n)
    {
      MergeFirstIsExact(ranges, |ranges|, n);
    }
  }

  lemma SortingCovers(ranges: seq<Range>, n: int)
    ensures Covers(Sort(ranges, StartsBefore), n) <==> Covers(ranges, n)
  {
    var sorted := Sort(ranges, StartsBefore);
    SortKeepsElements(ranges, StartsBefore);
    CoversMember(ranges, sorted, n);
    CoversMember(sorted, ranges, n);
  }

  lemma CoversMember(a: seq<Range>, b: seq<Range>, n: int)
    requires SameElements(a, b)
    ensures Covers(a, n) ==> Covers(b, n)
  {
    if Covers(a, n) {
      var k :| 0 <= k < |a| && In(a[k], n);
      assert a[k] in multiset(b);
      assert a[k] in b;
    }
  }
}
