/** The counts of every scan of every history: src/queue/lifecycle/scan-counts.ts over the rows that
    src/queue/lifecycle/plan-findings.ts writes. */
module HistoryCounts {
  import opened Seqs
  import opened Findings
  import opened StatusMatcher
  import opened PlanFindings
  import opened PlanProperties
  import opened PlanRows
  import opened History
  import opened ScanCounts

  function PoolId(x: ResolvedFinding): Option<Id> {
    Some(x.id)
  }

  function PoolIds(pool: seq<ResolvedFinding>): seq<Option<Id>> {
    MapSeq(PoolId, pool)
  }

  /** Pool entries have ids of their own, all handed out before `next`. */
  ghost predicate PoolIdsOk(pool: seq<ResolvedFinding>, next: Id) {
    Distinct(PoolIds(pool)) && forall k :: 0 <= k < |pool| ==> pool[k].id < next
  }

  // ----- increasing ids are distinct -----

  ghost predicate IdsIncrease(rows: seq<Row>) {
    forall i, j :: 0 <= i < j < |rows| ==> rows[i].id < rows[j].id
  }

  function RowIds(rows: seq<Row>): seq<Option<Id>> {
    MapSeq(IdOf, rows)
  }

  lemma {:induction false} IncreasingAreDistinct(rows: seq<Row>)
    requires IdsIncrease(rows)
    ensures Distinct(RowIds(rows))
  {
    if rows == [] {
      assert RowIds(rows) == [];
    } else {
      var front, x := rows[..|rows| - 1], rows[|rows| - 1];
      IncreasingAreDistinct(front);
      assert rows == front + [x];
      MapConcat(IdOf, front, [x]);
      assert RowIds([x]) == [Some(x.id)];
      assert forall f :: f in RowIds(front) ==> f !in [Some(x.id)];
      DistinctConcat(RowIds(front), [Some(x.id)]);
    }
  }

  lemma {:induction false} FilterIncreases(rows: seq<Row>, p: Row -> bool)
    requires IdsIncrease(rows)
    ensures IdsIncrease(Filter(rows, p))
  {
    if rows != [] {
      FilterIncreases(rows[..|rows| - 1], p);
      FilterMembers(rows[..|rows| - 1], p);
      var kept := Filter(rows[..|rows| - 1], p);
      forall i | 0 <= i < |kept|
        ensures kept[i].id < rows[|rows| - 1].id
      {
        assert kept[i] in kept;
      }
    }
  }

  lemma {:induction false} RowsOfIncrease(h: seq<Scan>)
    requires IdsGrow(h)
    ensures IdsIncrease(RowsOf(h))
    decreases |h|
  {
    if h != [] {
      var front, last := h[..|h| - 1], h[|h| - 1];
      RowsOfIncrease(front);
      forall i, j | 0 <= i < |RowsOf(front)| && 0 <= j < |last.rows|
        ensures RowsOf(front)[i].id < last.rows[j].id
      {
        var s, l := RowOfHistory(front, i);
        assert Before(s, l, |h| - 1, j);
        assert h[s].rows[l].id < h[|h| - 1].rows[j].id;
      }
    }
  }

  lemma WindowGrows(h: seq<Scan>)
    requires IdsGrow(h)
    ensures IdsGrow(Window(h))
  {
    var w := if |h| <= REOPEN_WINDOW_SCANS then 0 else |h| - REOPEN_WINDOW_SCANS;
    assert Window(h) == h[w..];
    forall i, k, j, l | 0 <= i < |Window(h)| && 0 <= k < |Window(h)[i].rows| && 0 <= j < |Window(h)|
                        && 0 <= l < |Window(h)[j].rows| && Before(i, k, j, l)
      ensures Window(h)[i].rows[k].id < Window(h)[j].rows[l].id
    {
      assert Before(w + i, k, w + j, l);
      assert h[w + i].rows[k].id < h[w + j].rows[l].id;
    }
  }

  // ----- the pool of one plan -----

  /** What the window query loads has ids of its own, all older than the new scan's. */
  lemma RecentIdsOk(h: seq<Scan>, recent: seq<Stored>, id: Id)
    requires IdsGrow(h) && IdsBelow(h, id) && Loads(recent, RowsOf(Window(h)), IsResolved)
    ensures PoolIdsOk(MapSeq(AsResolved, recent), id)
  {
    var rows := Filter(RowsOf(Window(h)), IsResolved);
    WindowGrows(h);
    RowsOfIncrease(Window(h));
    FilterIncreases(RowsOf(Window(h)), IsResolved);
    IncreasingAreDistinct(rows);
    MapSameElements(SomeId, recent, MapSeq(AsStored, rows));
    assert BaseIds(MapSeq(AsStored, rows)) == RowIds(rows);
    assert PoolIds(MapSeq(AsResolved, recent)) == BaseIds(recent);
    forall k | 0 <= k < |recent|
      ensures recent[k].id < id
    {
      var at := LoadedIsRow(recent, RowsOf(Window(h)), IsResolved, recent[k]);
      var i, l := RowOfHistory(Window(h), at);
      var j := WindowIsHistory(h, i);
      assert h[j].rows[l].id < id;
    }
  }

  lemma PoolIdsGrow(pool: seq<ResolvedFinding>, closed: seq<Row>, from: Id)
    requires PoolIdsOk(pool, from) && IdsFrom(closed, from)
    ensures PoolIdsOk(pool + MapSeq(AsResolvedRow, closed), from + |closed|)
  {
    IncreasingAreDistinct(closed);
    assert PoolIds(MapSeq(AsResolvedRow, closed)) == RowIds(closed);
    assert forall f :: f in PoolIds(pool) ==> f !in RowIds(closed);
    DistinctConcat(PoolIds(pool), RowIds(closed));
    MapConcat(PoolId, pool, MapSeq(AsResolvedRow, closed));
  }

  lemma CarryPoolIds(p: Phase, carry: CarryInput, scanId: ScanId, id: Id)
    requires PoolIdsOk(p.pool, id + |p.rows|)
    ensures var p' := CarryPhase(p, carry, scanId, id);
            PoolIdsOk(p'.pool, id + |p'.rows|)
  {
    var kept := CarriedRows(Kept(carry), scanId, id + |p.rows|);
    PoolIdsGrow(p.pool, ResolvedRows(Closed(carry), scanId, id + |p.rows| + |kept|), id + |p.rows| + |kept|);
  }

  lemma MatchPoolIds(p: Phase, base: seq<Stored>, scanId: ScanId, id: Id)
    requires PoolIdsOk(p.pool, id + |p.rows|)
    ensures var p' := MatchPhase(p, base, scanId, id);
            PoolIdsOk(p'.pool, id + |p'.rows|)
  {
    var paired := PairRows(Pairs(p.candidates, base, |p.candidates|), scanId, id + |p.rows|);
    PoolIdsGrow(p.pool, ResolvedRows(Unmatched(p.candidates, base), scanId, id + |p.rows| + |paired|),
                id + |p.rows| + |paired|);
  }

  lemma FinalPoolIds(input: PlanInput, id: Id)
    requires PoolIdsOk(MapSeq(AsResolved, input.recentResolved), id)
    ensures PoolIdsOk(AfterMatch(input, id).pool, id + |AfterMatch(input, id).rows|)
  {
    if input.carry.Some? {
      CarryPoolIds(StartPhase(input), input.carry.value, input.scanId, id);
    }
    if input.matchBase.Some? {
      MatchPoolIds(AfterCarry(input, id), input.matchBase.value, input.scanId, id);
    }
  }

  // ----- each resolved finding re-opens at most one row -----

  function IsReopenedRow(row: Row): bool {
    row.status == Reopened
  }

  /** What the first n answers of the pool gave up. */
  function Taken(reopens: seq<Option<ResolvedFinding>>, n: nat): seq<ResolvedFinding>
    requires n <= |reopens|
  {
    if n == 0 then []
    else if reopens[n - 1].Some? then Taken(reopens, n - 1) + [reopens[n - 1].value]
    else Taken(reopens, n - 1)
  }

  lemma {:induction false} TakenIsReopenedBy(norm: string -> string, cs: seq<Content>, pool: seq<ResolvedFinding>, n: nat)
    requires n <= |cs|
    ensures Taken(AllReopens(norm, cs, pool), n) == ReopenedBy(norm, cs, pool, n)
    decreases n
  {
    if n > 0 {
      TakenIsReopenedBy(norm, cs, pool, n - 1);
      assert AllReopens(norm, cs, pool)[n - 1] == Reopens(norm, cs, pool, n - 1);
      hide AllReopens, Reopens, PoolAfter;
    }
  }

  /** Origins of the first n NEW or REOPENED rows that re-open something. */
  lemma {:induction false} ReopenedOrigins(cs: seq<Content>, reopens: seq<Option<ResolvedFinding>>, scanId: ScanId, id: Id, n: nat)
    requires n <= |cs| == |reopens|
    ensures ReopenedOriginsOf(NewRows(cs, reopens, scanId, id), n) == PoolIds(Taken(reopens, n))
    decreases n
  {
    if n > 0 {
      ReopenedOrigins(cs, reopens, scanId, id, n - 1);
      ReopenedOriginsStep(NewRows(cs, reopens, scanId, id), n - 1, Taken(reopens, n - 1), reopens[n - 1],
                          cs[n - 1], scanId, id + (n - 1));
    }
  }

  function ReopenedOriginsOf(rows: seq<Row>, n: nat): seq<Option<Id>>
    requires n <= |rows|
  {
    Origins(Filter(rows[..n], IsReopenedRow))
  }

  lemma ReopenedOriginsStep(rows: seq<Row>, n: nat, taken: seq<ResolvedFinding>, reopens: Option<ResolvedFinding>,
                            c: Content, scanId: ScanId, id: Id)
    requires n < |rows| && rows[n] == NewRow(c, reopens, scanId, id)
    requires ReopenedOriginsOf(rows, n) == PoolIds(taken)
    ensures ReopenedOriginsOf(rows, n + 1) == PoolIds(if reopens.Some? then taken + [reopens.value] else taken)
  {
    assert rows[..n + 1] == rows[..n] + [rows[n]];
    FilterSnoc(rows[..n], rows[n], IsReopenedRow);
    ReopenedSnoc(Filter(rows[..n], IsReopenedRow), rows[n], taken, reopens, c, scanId, id);
  }

  lemma ReopenedSnoc(rows: seq<Row>, row: Row, taken: seq<ResolvedFinding>, reopens: Option<ResolvedFinding>,
                     c: Content, scanId: ScanId, id: Id)
    requires Origins(rows) == PoolIds(taken) && row == NewRow(c, reopens, scanId, id)
    ensures Origins(if IsReopenedRow(row) then rows + [row] else rows)
         == PoolIds(if reopens.Some? then taken + [reopens.value] else taken)
  {
    MapConcat(OriginOf, rows, [row]);
    if reopens.Some? {
      MapConcat(PoolId, taken, [reopens.value]);
    }
  }

  lemma TakenDistinct(taken: seq<ResolvedFinding>, left: seq<ResolvedFinding>, pool: seq<ResolvedFinding>)
    requires MakeUp(taken, left, pool) && Distinct(PoolIds(pool))
    ensures Distinct(PoolIds(taken))
  {
    SplitMaps(PoolId, pool, taken, left);
    DistinctPart(PoolIds(taken), PoolIds(left), PoolIds(pool));
  }

  lemma LastReopensOnce(norm: string -> string, p: Phase, already: Option<seq<string>>, scanId: ScanId, id: Id)
    requires Distinct(PoolIds(p.pool))
    ensures Distinct(Origins(Filter(LastRows(norm, p, already, scanId, id), IsReopenedRow)))
  {
    var cs := Undropped(p.candidates, already);
    var rows := LastRows(norm, p, already, scanId, id);
    ReopenedOrigins(cs, AllReopens(norm, cs, p.pool), scanId, id + |p.rows|, |cs|);
    TakenIsReopenedBy(norm, cs, p.pool, |cs|);
    assert rows[..|cs|] == rows;
    ReopeningConserves(norm, cs, p.pool, |cs|);
    TakenDistinct(ReopenedBy(norm, cs, p.pool, |cs|), PoolAfter(norm, cs, p.pool, |cs|), p.pool);
  }

  lemma {:induction false} NoneReopened(rows: seq<Row>)
    requires OnlyContinues(rows)
    ensures Filter(rows, IsReopenedRow) == []
  {
    if rows != [] {
      NoneReopened(rows[..|rows| - 1]);
    }
  }

  lemma PlanReopensOnce(norm: string -> string, input: PlanInput, id: Id)
    requires PoolIdsOk(MapSeq(AsResolved, input.recentResolved), id)
    ensures Distinct(Origins(Filter(Plan(norm, input, id), IsReopenedRow)))
  {
    var p := AfterMatch(input, id);
    FinalPoolIds(input, id);
    FirstPhasesOnlyContinue(input, id);
    LastReopensOnce(norm, p, input.alreadyPersisted, input.scanId, id);
    OnlyLastReopens(p.rows, LastRows(norm, p, input.alreadyPersisted, input.scanId, id));
  }

  lemma OnlyLastReopens(rows: seq<Row>, last: seq<Row>)
    requires OnlyContinues(rows)
    ensures Filter(rows + last, IsReopenedRow) == Filter(last, IsReopenedRow)
  {
    NoneReopened(rows);
    FilterConcat(rows, last, IsReopenedRow);
  }

  lemma {:induction false} DistinctTellsApart(rows: seq<Row>, i: nat, j: nat)
    requires Distinct(Origins(Filter(rows, IsReopenedRow)))
    requires i < j < |rows| && rows[i].status == Reopened && rows[j].status == Reopened
    ensures rows[i].origin != rows[j].origin
    decreases |rows|
  {
    var front, x := rows[..|rows| - 1], rows[|rows| - 1];
    var kept := Filter(front, IsReopenedRow);
    if IsReopenedRow(x) {
      MapConcat(OriginOf, kept, [x]);
      assert multiset(Origins(kept + [x])) == multiset(Origins(kept)) + multiset{x.origin};
    }
    if j < |rows| - 1 {
      assert Distinct(Origins(kept)) by {
        forall f
          ensures multiset(Origins(kept))[f] <= 1
        {
          assert multiset(Origins(Filter(rows, IsReopenedRow)))[f] <= 1;
        }
      }
      DistinctTellsApart(front, i, j);
    } else {
      FilterMembers(front, IsReopenedRow);
      assert front[i] in kept;
      CountOf(OriginOf, kept, front[i]);
      assert multiset(Origins(kept + [x]))[x.origin] <= 1;
    }
  }

  /** In every reachable history the rows of each scan have ids of their own, and no two of them
      re-open the same finding. */
  lemma {:induction false} EveryScanIsWellKept(norm: string -> string, h: seq<Scan>, i: nat)
    requires Reachable(norm, h) && i < |h|
    ensures WellKept(h[i].rows)
    decreases |h|
  {
    var before := h[..|h| - 1];
    if i < |h| - 1 {
      EveryScanIsWellKept(norm, before, i);
    } else {
      assert Extends(norm, before, h);
      var s, id :| Appends(norm, before, h, s, id);
      ReachableProvenance(norm, before);
      RecentIdsOk(before, s.recent, id);
      PlanReopensOnce(norm, InputOf(s), id);
      PlanIds(norm, InputOf(s), id);
      AllApart(h[i].rows, id);
    }
  }

  lemma AllApart(rows: seq<Row>, id: Id)
    requires IdsFrom(rows, id) && Distinct(Origins(Filter(rows, IsReopenedRow)))
    ensures WellKept(rows)
  {
    forall i, j | 0 <= i < j < |rows| && rows[i].status == Reopened && rows[j].status == Reopened
      ensures rows[i].origin != rows[j].origin
    {
      DistinctTellsApart(rows, i, j);
    }
  }

  /** What the counts of a scan are meant to be, given its rows. */
  ghost predicate RightCounts(counts: ScanCounts, rows: seq<Row>) {
    && counts.findingsCount == CountKeys(Counted(rows), LiveFrom(Static))
    && counts.criticalCount == CountKeys(Counted(rows), LiveAt(Critical))
    && counts.majorCount == CountKeys(Counted(rows), LiveAt(Major))
    && counts.minorCount == CountKeys(Counted(rows), LiveAt(Minor))
    && counts.newCount == CountKeys(Counted(rows), WithStatus(New))
    && counts.persistedCount == CountKeys(Counted(rows), WithStatus(Persisted))
    && counts.reopenedCount == CountKeys(Counted(rows), WithStatus(Reopened))
    && counts.newCount + counts.persistedCount + counts.reopenedCount == CountKeys(Counted(rows), Live)
    && counts.resolvedCount == StillResolved(rows)
  }

  /** The counts of any scan of any history: the clamp is never needed and every count counts what it
      is for, when re-opened rows agree on suppression with what they re-open. */
  lemma CountsAreRight(norm: string -> string, h: seq<Scan>, i: nat, groups: seq<Group>)
    requires Reachable(norm, h) && i < |h|
    requires IsGroupBy(groups, Counted(h[i].rows)) && AgreeOnSuppression(h[i].rows)
    ensures var t := Tally(groups, |groups|);
            && ReopenedWithinScan(h[i].rows) <= t.resolvedCount
            && RightCounts(t.(resolvedCount := t.resolvedCount - ReopenedWithinScan(h[i].rows)), h[i].rows)
  {
    hide *;
    EveryScanIsWellKept(norm, h, i);
    KeptCountsAreRight(h[i].rows, groups);
  }

  lemma KeptCountsAreRight(rows: seq<Row>, groups: seq<Group>)
    requires WellKept(rows) && IsGroupBy(groups, Counted(rows)) && AgreeOnSuppression(rows)
    ensures var t := Tally(groups, |groups|);
            && ReopenedWithinScan(rows) <= t.resolvedCount
            && RightCounts(t.(resolvedCount := t.resolvedCount - ReopenedWithinScan(rows)), rows)
  {
    TallyCountsRows(groups, rows);
    AgreementMakesCountsRight(rows);
    hide WellKept, IsGroupBy, AgreeOnSuppression, Tally, Counted, CountKeys, ReopenedWithinScan, StillResolved;
  }

  /** The exact condition, for every scan of every history. */
  lemma ResolvedCountRightIffBalanced(norm: string -> string, h: seq<Scan>, i: nat)
    requires Reachable(norm, h) && i < |h|
    ensures var rows := h[i].rows;
            var crossed := |ReopenedIds(rows) - ResolvedIds(rows)|;
            var quiet := |QuietlyReopenedIds(rows) * ResolvedIds(rows)|;
            StoredResolvedCount(rows) == StillResolved(rows)
            <==> crossed == quiet || (crossed > quiet && ResolvedIds(rows) <= ReopenedIds(rows) + QuietlyReopenedIds(rows))
  {
    EveryScanIsWellKept(norm, h, i);
    ResolvedCountRightIff(h[i].rows);
  }
}
