/** A scan's counts rebuilt from its rows: src/queue/lifecycle/scan-counts.ts. */
module ScanCounts {
  import opened Seqs
  import opened Findings
  import opened PlanProperties
  import opened PlanRows

  datatype ScanCounts = ScanCounts(
    findingsCount: nat,
    criticalCount: nat,
    majorCount: nat,
    minorCount: nat,
    newCount: nat,
    persistedCount: nat,
    reopenedCount: nat,
    resolvedCount: nat)

  datatype Key = Key(status: Status, severity: Severity, source: Source)

  /** One line of the GROUP BY. */
  datatype Group = Group(key: Key, n: nat)

  function KeyOf(row: Row): Key {
    Key(row.status, row.content.severity, row.content.source)
  }

  predicate IsSuppressed(row: Row) {
    row.content.suppressedReason.Some?
  }

  predicate IsCounted(row: Row) {
    !IsSuppressed(row)
  }

  /** What a count asks of a key. */
  datatype Query = WithStatus(status: Status) | NewOrPersisted | Live | LiveFrom(source: Source) | LiveAt(severity: Severity) | Exactly(key: Key)

  predicate Passes(q: Query, k: Key) {
    match q
    case WithStatus(status) => k.status == status
    case NewOrPersisted => k.status == New || k.status == Persisted
    case Live => k.status != Resolved
    case LiveFrom(source) => k.status != Resolved && k.source == source
    case LiveAt(severity) => k.status != Resolved && k.severity == severity
    case Exactly(key) => k == key
  }

  function Passing(q: Query): Row -> bool {
    row => Passes(q, KeyOf(row))
  }

  /** How many rows have a key that passes. */
  function CountKeys(rows: seq<Row>, q: Query): nat {
    |Filter(rows, Passing(q))|
  }

  /** What GROUP BY status, severity, source with a count returns for `rows`, in any order. */
  ghost predicate IsGroupBy(groups: seq<Group>, rows: seq<Row>) {
    && (forall i, j :: 0 <= i < j < |groups| ==> groups[i].key != groups[j].key)
    && (forall i :: 0 <= i < |groups| ==> groups[i].n == CountKeys(rows, Exactly(groups[i].key)) > 0)
    && (forall k :: 0 <= k < |rows| ==> Grouped(rows[k], groups, |groups|))
  }

  /** The sum of the first n groups that pass. */
  function SumGroups(groups: seq<Group>, q: Query, n: nat): nat
    requires n <= |groups|
  {
    if n == 0 then 0
    else SumGroups(groups, q, n - 1) + if Passes(q, groups[n - 1].key) then groups[n - 1].n else 0
  }

  /** The key of the row is among the first n groups. */
  predicate Grouped(row: Row, groups: seq<Group>, n: nat)
    requires n <= |groups|
  {
    exists i :: 0 <= i < n && groups[i].key == KeyOf(row)
  }

  predicate GroupedPasses(row: Row, groups: seq<Group>, n: nat, q: Query)
    requires n <= |groups|
  {
    Grouped(row, groups, n) && Passes(q, KeyOf(row))
  }

  function GroupedAnd(groups: seq<Group>, n: nat, q: Query): Row -> bool
    requires n <= |groups|
  {
    row => GroupedPasses(row, groups, n, q)
  }

  lemma {:induction false} DisjointCounts(rows: seq<Row>, p: Row -> bool, q: Row -> bool, r: Row -> bool)
    requires forall x :: r(x) <==> p(x) || q(x)
    requires forall x :: !(p(x) && q(x))
    ensures |Filter(rows, r)| == |Filter(rows, p)| + |Filter(rows, q)|
  {
    if rows != [] {
      DisjointCounts(rows[..|rows| - 1], p, q, r);
    }
  }

  lemma {:induction false} SameCounts(rows: seq<Row>, p: Row -> bool, q: Row -> bool)
    requires forall x :: x in rows ==> (p(x) <==> q(x))
    ensures Filter(rows, p) == Filter(rows, q)
  {
    if rows != [] {
      SameCounts(rows[..|rows| - 1], p, q);
    }
  }

  lemma {:induction false} NoCounts(rows: seq<Row>, p: Row -> bool)
    requires forall x :: x in rows ==> !p(x)
    ensures Filter(rows, p) == []
  {
    if rows != [] {
      NoCounts(rows[..|rows| - 1], p);
    }
  }

  lemma GroupedStep(groups: seq<Group>, n: nat, q: Query, x: Row)
    requires n < |groups| && forall i :: 0 <= i < n ==> groups[i].key != groups[n].key
    ensures GroupedPasses(x, groups, n + 1, q) <==>
            GroupedPasses(x, groups, n, q) || (Passes(q, groups[n].key) && Passes(Exactly(groups[n].key), KeyOf(x)))
    ensures !(GroupedPasses(x, groups, n, q) && Passes(Exactly(groups[n].key), KeyOf(x)))
  {
  }

  lemma {:induction false} GroupsSum(groups: seq<Group>, rows: seq<Row>, q: Query, n: nat)
    requires n <= |groups|
    requires forall i, j :: 0 <= i < j < |groups| ==> groups[i].key != groups[j].key
    requires forall i :: 0 <= i < |groups| ==> groups[i].n == CountKeys(rows, Exactly(groups[i].key))
    ensures SumGroups(groups, q, n) == GroupedCount(groups, rows, q, n)
    decreases n
  {
    if n == 0 {
      NoCounts(rows, GroupedAnd(groups, 0, q));
    } else {
      GroupsSum(groups, rows, q, n - 1);
      GroupsSumStep(groups, rows, q, n - 1);
      assert groups[n - 1].n == CountKeys(rows, Exactly(groups[n - 1].key));
    }
  }

  function GroupedCount(groups: seq<Group>, rows: seq<Row>, q: Query, n: nat): nat
    requires n <= |groups|
  {
    |Filter(rows, GroupedAnd(groups, n, q))|
  }

  lemma GroupsSumStep(groups: seq<Group>, rows: seq<Row>, q: Query, n: nat)
    requires n < |groups| && forall i :: 0 <= i < n ==> groups[i].key != groups[n].key
    ensures GroupedCount(groups, rows, q, n + 1)
         == GroupedCount(groups, rows, q, n)
            + if Passes(q, groups[n].key) then CountKeys(rows, Exactly(groups[n].key)) else 0
  {
    forall x
      ensures GroupedPasses(x, groups, n + 1, q) <==>
              GroupedPasses(x, groups, n, q) || (Passes(q, groups[n].key) && Passes(Exactly(groups[n].key), KeyOf(x)))
      ensures !(GroupedPasses(x, groups, n, q) && Passes(Exactly(groups[n].key), KeyOf(x)))
    {
      GroupedStep(groups, n, q, x);
    }
    if Passes(q, groups[n].key) {
      DisjointCounts(rows, GroupedAnd(groups, n, q), Passing(Exactly(groups[n].key)), GroupedAnd(groups, n + 1, q));
    } else {
      SameCounts(rows, GroupedAnd(groups, n, q), GroupedAnd(groups, n + 1, q));
    }
  }

  /** Adding up groups counts rows. */
  lemma GroupsCountRows(groups: seq<Group>, rows: seq<Row>, q: Query)
    requires IsGroupBy(groups, rows)
    ensures SumGroups(groups, q, |groups|) == CountKeys(rows, q)
  {
    GroupsSum(groups, rows, q, |groups|);
    SameCounts(rows, GroupedAnd(groups, |groups|, q), Passing(q));
  }

  function Counted(rows: seq<Row>): seq<Row> {
    Filter(rows, IsCounted)
  }

  /** What the loop over the first n groups has added up; RESOLVED before the correction. */
  function Tally(groups: seq<Group>, n: nat): ScanCounts
    requires n <= |groups|
  {
    ScanCounts(
      SumGroups(groups, LiveFrom(Static), n),
      SumGroups(groups, LiveAt(Critical), n),
      SumGroups(groups, LiveAt(Major), n),
      SumGroups(groups, LiveAt(Minor), n),
      SumGroups(groups, WithStatus(New), n),
      SumGroups(groups, WithStatus(Persisted), n),
      SumGroups(groups, WithStatus(Reopened), n),
      SumGroups(groups, WithStatus(Resolved), n))
  }

  method RecomputeScanCounts(groups: seq<Group>, reopenedWithinScan: nat) returns (counts: ScanCounts)
    ensures var t := Tally(groups, |groups|);
            counts == t.(resolvedCount := if t.resolvedCount < reopenedWithinScan then 0 else t.resolvedCount - reopenedWithinScan)
  {
    counts := ScanCounts(0, 0, 0, 0, 0, 0, 0, 0);
    for i := 0 to |groups|
      invariant counts == Tally(groups, i)
    {
      var key, n := groups[i].key, groups[i].n;
      if key.status == Resolved {
        counts := counts.(resolvedCount := counts.resolvedCount + n);
        continue;
      }
      if key.status == New { counts := counts.(newCount := counts.newCount + n); }
      if key.status == Persisted { counts := counts.(persistedCount := counts.persistedCount + n); }
      if key.status == Reopened { counts := counts.(reopenedCount := counts.reopenedCount + n); }
      if key.source == Static { counts := counts.(findingsCount := counts.findingsCount + n); }
      if key.severity == Critical { counts := counts.(criticalCount := counts.criticalCount + n); }
      if key.severity == Major { counts := counts.(majorCount := counts.majorCount + n); }
      if key.severity == Minor { counts := counts.(minorCount := counts.minorCount + n); }
    }
    var left := counts.resolvedCount - reopenedWithinScan;
    counts := counts.(resolvedCount := if left < 0 then 0 else left);
  }

  /** Each count is the number of unsuppressed rows it names; the status counts make up the live rows. */
  lemma TallyCountsRows(groups: seq<Group>, rows: seq<Row>)
    requires IsGroupBy(groups, Counted(rows))
    ensures var t := Tally(groups, |groups|);
            && t.findingsCount == CountKeys(Counted(rows), LiveFrom(Static))
            && t.criticalCount == CountKeys(Counted(rows), LiveAt(Critical))
            && t.majorCount == CountKeys(Counted(rows), LiveAt(Major))
            && t.minorCount == CountKeys(Counted(rows), LiveAt(Minor))
            && t.resolvedCount == CountKeys(Counted(rows), WithStatus(Resolved))
            && t.newCount == CountKeys(Counted(rows), WithStatus(New))
            && t.persistedCount == CountKeys(Counted(rows), WithStatus(Persisted))
            && t.reopenedCount == CountKeys(Counted(rows), WithStatus(Reopened))
            && t.newCount + t.persistedCount + t.reopenedCount == CountKeys(Counted(rows), Live)
  {
    var all := Counted(rows);
    GroupsCountRows(groups, all, LiveFrom(Static));
    GroupsCountRows(groups, all, LiveAt(Critical));
    GroupsCountRows(groups, all, LiveAt(Major));
    GroupsCountRows(groups, all, LiveAt(Minor));
    GroupsCountRows(groups, all, WithStatus(Resolved));
    GroupsCountRows(groups, all, WithStatus(New));
    GroupsCountRows(groups, all, WithStatus(Persisted));
    GroupsCountRows(groups, all, WithStatus(Reopened));
    LiveSplits(all);
  }

  lemma LiveSplits(rows: seq<Row>)
    ensures CountKeys(rows, WithStatus(New)) + CountKeys(rows, WithStatus(Persisted)) + CountKeys(rows, WithStatus(Reopened))
         == CountKeys(rows, Live)
  {
    DisjointCounts(rows, Passing(WithStatus(New)), Passing(WithStatus(Persisted)), Passing(NewOrPersisted));
    DisjointCounts(rows, Passing(NewOrPersisted), Passing(WithStatus(Reopened)), Passing(Live));
  }

  // ----- resolutions that were re-opened in the same scan -----

  /** A REOPENED row whose origin is a RESOLVED row of the same scan. */
  predicate ReopensHere(row: Row, rows: seq<Row>) {
    row.status == Reopened && exists k :: 0 <= k < |rows| && rows[k].status == Resolved && row.origin == Some(rows[k].id)
  }

  /** A RESOLVED row some REOPENED row of the same scan points at. */
  predicate IsReopenedHere(row: Row, rows: seq<Row>) {
    row.status == Resolved && exists k :: 0 <= k < |rows| && rows[k].status == Reopened && rows[k].origin == Some(row.id)
  }

  function CountedReopensHere(rows: seq<Row>): Row -> bool {
    row => IsCounted(row) && ReopensHere(row, rows)
  }

  /** What the second query counts. */
  function ReopenedWithinScan(rows: seq<Row>): nat {
    |Filter(rows, CountedReopensHere(rows))|
  }

  function CountedStillResolved(rows: seq<Row>): Row -> bool {
    row => IsCounted(row) && row.status == Resolved && !IsReopenedHere(row, rows)
  }

  /** What resolvedCount is for: unsuppressed resolutions no finding of the scan re-opened. */
  function StillResolved(rows: seq<Row>): nat {
    |Filter(rows, CountedStillResolved(rows))|
  }

  function CountedResolved(row: Row): bool {
    IsCounted(row) && row.status == Resolved
  }

  /** The stored resolvedCount. */
  function StoredResolvedCount(rows: seq<Row>): nat {
    var resolved := CountKeys(Counted(rows), WithStatus(Resolved));
    if resolved < ReopenedWithinScan(rows) then 0 else resolved - ReopenedWithinScan(rows)
  }

  /** No two rows share an id, no two REOPENED rows an origin. */
  ghost predicate WellKept(rows: seq<Row>) {
    && (forall i, j :: 0 <= i < j < |rows| ==> rows[i].id != rows[j].id)
    && (forall i, j :: 0 <= i < j < |rows| && rows[i].status == Reopened && rows[j].status == Reopened ==>
          rows[i].origin != rows[j].origin)
  }

  /** Ids of unsuppressed RESOLVED rows. */
  ghost function ResolvedIds(rows: seq<Row>): set<Option<Id>> {
    set row | row in rows && CountedResolved(row) :: Some(row.id)
  }

  ghost function ReopenedIds(rows: seq<Row>): set<Option<Id>> {
    set row | row in rows && IsCounted(row) && ReopensHere(row, rows) :: row.origin
  }

  /** Origins in the scan that suppressed rows re-open. */
  ghost function QuietlyReopenedIds(rows: seq<Row>): set<Option<Id>> {
    set row | row in rows && IsSuppressed(row) && ReopensHere(row, rows) :: row.origin
  }

  function IdOf(row: Row): Option<Id> {
    Some(row.id)
  }

  ghost function ValuesOf(rows: seq<Row>, p: Row -> bool, f: Row -> Option<Id>): set<Option<Id>> {
    set row | row in rows && p(row) :: f(row)
  }

  lemma ValuesSnoc(rows: seq<Row>, x: Row, p: Row -> bool, f: Row -> Option<Id>)
    ensures ValuesOf(rows + [x], p, f) == if p(x) then ValuesOf(rows, p, f) + {f(x)} else ValuesOf(rows, p, f)
  {
    var after := ValuesOf(rows + [x], p, f);
    assert p(x) ==> x in rows + [x] && f(x) in after;
    forall v | v in ValuesOf(rows, p, f)
      ensures v in after
    {
      var row :| row in rows && p(row) && f(row) == v;
      assert row in rows + [x];
    }
  }

  /** Filtered rows are as many as the values that tell them apart. */
  lemma {:induction false} CountIsCardinality(rows: seq<Row>, p: Row -> bool, f: Row -> Option<Id>)
    requires forall i, j :: 0 <= i < j < |rows| && p(rows[i]) && p(rows[j]) ==> f(rows[i]) != f(rows[j])
    ensures |Filter(rows, p)| == |ValuesOf(rows, p, f)|
    decreases |rows|
  {
    if rows == [] {
      assert ValuesOf(rows, p, f) == {};
    } else {
      var front, x := rows[..|rows| - 1], rows[|rows| - 1];
      CountIsCardinality(front, p, f);
      assert rows == front + [x];
      ValuesSnoc(front, x, p, f);
      forall row | row in front && p(row)
        ensures p(x) ==> f(row) != f(x)
      {
        var i :| 0 <= i < |front| && front[i] == row;
        assert rows[i] == row;
      }
    }
  }

  lemma {:induction false} CountedThen(rows: seq<Row>)
    ensures Filter(Counted(rows), Passing(WithStatus(Resolved))) == Filter(rows, CountedResolved)
  {
    if rows != [] {
      var x := rows[|rows| - 1];
      CountedThen(rows[..|rows| - 1]);
      if IsCounted(x) {
        FilterSnoc(Counted(rows[..|rows| - 1]), x, Passing(WithStatus(Resolved)));
      }
    }
  }

  lemma ResolvedAreIds(rows: seq<Row>)
    requires WellKept(rows)
    ensures CountKeys(Counted(rows), WithStatus(Resolved)) == |ResolvedIds(rows)|
  {
    CountedThen(rows);
    CountIsCardinality(rows, CountedResolved, IdOf);
    assert ResolvedIds(rows) == ValuesOf(rows, CountedResolved, IdOf);
  }

  lemma ReopenedAreIds(rows: seq<Row>)
    requires WellKept(rows)
    ensures ReopenedWithinScan(rows) == |ReopenedIds(rows)|
  {
    CountIsCardinality(rows, CountedReopensHere(rows), OriginOf);
    assert ReopenedIds(rows) == ValuesOf(rows, CountedReopensHere(rows), OriginOf);
  }

  lemma StillResolvedAreIds(rows: seq<Row>)
    requires WellKept(rows)
    ensures StillResolved(rows) == |ResolvedIds(rows) - ReopenedIds(rows) - QuietlyReopenedIds(rows)|
  {
    CountIsCardinality(rows, CountedStillResolved(rows), IdOf);
    var left := ResolvedIds(rows) - ReopenedIds(rows) - QuietlyReopenedIds(rows);
    var still := ValuesOf(rows, CountedStillResolved(rows), IdOf);
    forall x | x in left
      ensures x in still
    {
      var row :| row in rows && CountedResolved(row) && Some(row.id) == x;
      NotReopened(rows, row);
    }
    forall x | x in still
      ensures x in left
    {
      var row :| row in rows && CountedStillResolved(rows)(row) && IdOf(row) == x;
      NotReopened(rows, row);
    }
    assert left == still;
  }

  lemma NotReopened(rows: seq<Row>, row: Row)
    requires row in rows && CountedResolved(row)
    ensures IsReopenedHere(row, rows) <==> Some(row.id) in ReopenedIds(rows) + QuietlyReopenedIds(rows)
  {
    if IsReopenedHere(row, rows) {
      var k :| 0 <= k < |rows| && rows[k].status == Reopened && rows[k].origin == Some(row.id);
      var l :| 0 <= l < |rows| && rows[l] == row;
      assert ReopensHere(rows[k], rows) && rows[k] in rows;
    }
    if Some(row.id) in ReopenedIds(rows) + QuietlyReopenedIds(rows) {
      var r :| r in rows && ReopensHere(r, rows) && r.origin == Some(row.id);
      var k :| 0 <= k < |rows| && rows[k] == r;
    }
  }

  lemma ReopenersApart(rows: seq<Row>)
    requires WellKept(rows)
    ensures ReopenedIds(rows) !! QuietlyReopenedIds(rows)
  {
    forall x | x in ReopenedIds(rows)
      ensures x !in QuietlyReopenedIds(rows)
    {
      var r :| r in rows && IsCounted(r) && ReopensHere(r, rows) && r.origin == x;
      var i :| 0 <= i < |rows| && rows[i] == r;
      forall q | q in rows && IsSuppressed(q) && ReopensHere(q, rows)
        ensures q.origin != x
      {
        var j :| 0 <= j < |rows| && rows[j] == q;
        assert i != j;
      }
    }
  }

  /** How far taking |a| off |u| is from leaving out a and b. */
  lemma ClampedDifference<T>(u: set<T>, a: set<T>, b: set<T>)
    requires a !! b
    ensures var stored := if |u| < |a| then 0 else |u| - |a|;
            stored == |u - a - b| <==> |a - u| == |b * u| || (|a - u| > |b * u| && u <= a + b)
  {
    var y := u - a - b;
    assert u == y + (a * u) + (b * u);
    assert y !! (a * u) && (y + (a * u)) !! (b * u);
    assert a == (a * u) + (a - u);
    assert y == {} <==> u <= a + b;
  }

  /** resolvedCount is right exactly when as many unsuppressed findings re-open a suppressed
      resolution as suppressed findings re-open an unsuppressed one, or more of them do and no
      resolution is left anyway. */
  lemma ResolvedCountRightIff(rows: seq<Row>)
    requires WellKept(rows)
    ensures var crossed := |ReopenedIds(rows) - ResolvedIds(rows)|;
            var quiet := |QuietlyReopenedIds(rows) * ResolvedIds(rows)|;
            StoredResolvedCount(rows) == StillResolved(rows)
            <==> crossed == quiet || (crossed > quiet && ResolvedIds(rows) <= ReopenedIds(rows) + QuietlyReopenedIds(rows))
  {
    ResolvedAreIds(rows);
    ReopenedAreIds(rows);
    StillResolvedAreIds(rows);
    ReopenersApart(rows);
    ClampedDifference(ResolvedIds(rows), ReopenedIds(rows), QuietlyReopenedIds(rows));
  }

  /** A REOPENED row and its origin in the scan are both suppressed or both not. */
  predicate AgreeOnSuppression(rows: seq<Row>) {
    forall i, j ::
      (0 <= i < |rows| && 0 <= j < |rows| && rows[i].status == Reopened && rows[j].status == Resolved
       && rows[i].origin == Some(rows[j].id)) ==>
        IsSuppressed(rows[i]) == IsSuppressed(rows[j])
  }

  /** Then the clamp is never needed, and resolvedCount is the number of unsuppressed RESOLVED rows
      nothing in the scan re-opened. */
  lemma AgreementMakesCountsRight(rows: seq<Row>)
    requires WellKept(rows) && AgreeOnSuppression(rows)
    ensures ReopenedWithinScan(rows) <= CountKeys(Counted(rows), WithStatus(Resolved))
    ensures StoredResolvedCount(rows) == StillResolved(rows)
  {
    forall x | x in ReopenedIds(rows)
      ensures x in ResolvedIds(rows)
    {
      var r :| r in rows && IsCounted(r) && ReopensHere(r, rows) && r.origin == x;
      var i :| 0 <= i < |rows| && rows[i] == r;
      var j :| 0 <= j < |rows| && rows[j].status == Resolved && r.origin == Some(rows[j].id);
      assert rows[j] in rows;
    }
    forall x | x in QuietlyReopenedIds(rows)
      ensures x !in ResolvedIds(rows)
    {
      var r :| r in rows && IsSuppressed(r) && ReopensHere(r, rows) && r.origin == x;
      var i :| 0 <= i < |rows| && rows[i] == r;
      var j :| 0 <= j < |rows| && rows[j].status == Resolved && r.origin == Some(rows[j].id);
      forall q | q in rows && CountedResolved(q)
        ensures Some(q.id) != x
      {
        var l :| 0 <= l < |rows| && rows[l] == q;
        assert l != j;
      }
    }
    var u, a, b := ResolvedIds(rows), ReopenedIds(rows), QuietlyReopenedIds(rows);
    assert a - u == {} && b * u == {};
    assert u == a + (u - a);
    ResolvedAreIds(rows);
    ReopenedAreIds(rows);
    ResolvedCountRightIff(rows);
  }

  /** A suppressed and an unsuppressed resolution, and an unsuppressed finding that re-opens the first. */
  ghost predicate IsDisagreement(rows: seq<Row>) {
    && |rows| == 3 && rows[0].id != rows[1].id && rows[1].id != rows[2].id && rows[0].id != rows[2].id
    && rows[0].status == Resolved && IsSuppressed(rows[0])
    && rows[1].status == Resolved && IsCounted(rows[1])
    && rows[2].status == Reopened && IsCounted(rows[2]) && rows[2].origin == Some(rows[0].id)
  }

  lemma DisagreementIds(rows: seq<Row>)
    requires IsDisagreement(rows)
    ensures WellKept(rows)
    ensures ReopenedIds(rows) == {Some(rows[0].id)}
    ensures ResolvedIds(rows) == {Some(rows[1].id)}
    ensures QuietlyReopenedIds(rows) == {}
  {
    assert forall r :: r in rows <==> r == rows[0] || r == rows[1] || r == rows[2];
    assert ReopensHere(rows[2], rows);
  }

  /** The query does not check it, and then the count is wrong: the re-opening hides the other resolution. */
  lemma DisagreementMiscounts(rows: seq<Row>)
    requires IsDisagreement(rows)
    ensures StoredResolvedCount(rows) == 0 && StillResolved(rows) == 1
  {
    DisagreementIds(rows);
    ResolvedAreIds(rows);
    ReopenedAreIds(rows);
    StillResolvedAreIds(rows);
    assert ResolvedIds(rows) - ReopenedIds(rows) - QuietlyReopenedIds(rows) == {Some(rows[1].id)};
  }
}
