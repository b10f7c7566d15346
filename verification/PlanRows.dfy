/** Where each row of a plan comes from, and which fingerprints its live rows carry. */
module PlanRows {
  import opened Seqs
  import opened Findings
  import opened CarryForward
  import opened StatusMatcher
  import opened PlanFindings
  import opened PlanProperties

  // ----- ids -----

  ghost predicate IdsFrom(rows: seq<Row>, id: Id) {
    forall k :: 0 <= k < |rows| ==> rows[k].id == id + k
  }

  lemma IdsConcat(a: seq<Row>, b: seq<Row>, id: Id)
    requires IdsFrom(a, id) && IdsFrom(b, id + |a|)
    ensures IdsFrom(a + b, id)
  {
  }

  lemma CarryIds(p: Phase, carry: CarryInput, scanId: ScanId, id: Id)
    requires IdsFrom(p.rows, id)
    ensures IdsFrom(CarryPhase(p, carry, scanId, id).rows, id)
  {
    var kept := CarriedRows(Kept(carry), scanId, id + |p.rows|);
    IdsConcat(p.rows, kept, id);
    IdsConcat(p.rows + kept, ResolvedRows(Closed(carry), scanId, id + |p.rows| + |kept|), id);
  }

  lemma MatchIds(p: Phase, base: seq<Stored>, scanId: ScanId, id: Id)
    requires IdsFrom(p.rows, id)
    ensures IdsFrom(MatchPhase(p, base, scanId, id).rows, id)
  {
    var paired := PairRows(Pairs(p.candidates, base, |p.candidates|), scanId, id + |p.rows|);
    IdsConcat(p.rows, paired, id);
    IdsConcat(p.rows + paired, ResolvedRows(Unmatched(p.candidates, base), scanId, id + |p.rows| + |paired|), id);
  }

  lemma LastIds(norm: string -> string, p: Phase, already: Option<seq<string>>, scanId: ScanId, id: Id)
    ensures IdsFrom(LastRows(norm, p, already, scanId, id), id + |p.rows|)
  {
  }

  /** A plan numbers its rows one after the other. */
  lemma PlanIds(norm: string -> string, input: PlanInput, id: Id)
    ensures IdsFrom(Plan(norm, input, id), id)
  {
    if input.carry.Some? {
      CarryIds(StartPhase(input), input.carry.value, input.scanId, id);
    }
    if input.matchBase.Some? {
      MatchIds(AfterCarry(input, id), input.matchBase.value, input.scanId, id);
    }
    var p := AfterMatch(input, id);
    LastIds(norm, p, input.alreadyPersisted, input.scanId, id);
    IdsConcat(p.rows, LastRows(norm, p, input.alreadyPersisted, input.scanId, id), id);
  }

  // ----- origins -----

  /** The row points at one of `base` and was first seen when that was. */
  ghost predicate ContinuesOneOf(row: Row, base: seq<Stored>) {
    exists b :: b in base && row.origin == Some(b.id) && row.firstSeen == b.firstSeen
  }

  ghost predicate AllContinueOneOf(rows: seq<Row>, base: seq<Stored>) {
    forall k :: 0 <= k < |rows| ==> ContinuesOneOf(rows[k], base)
  }

  lemma ContinueConcat(a: seq<Row>, b: seq<Row>, base: seq<Stored>, base': seq<Stored>)
    requires AllContinueOneOf(a, base) && AllContinueOneOf(b, base')
    ensures AllContinueOneOf(a + b, base + base')
  {
    forall k | 0 <= k < |a + b|
      ensures ContinuesOneOf((a + b)[k], base + base')
    {
      if k < |a| {
        assert ContinuesOneOf(a[k], base);
        var x :| x in base && a[k].origin == Some(x.id) && a[k].firstSeen == x.firstSeen;
        assert x in base + base';
      } else {
        assert ContinuesOneOf(b[k - |a|], base');
        var x :| x in base' && b[k - |a|].origin == Some(x.id) && b[k - |a|].firstSeen == x.firstSeen;
        assert x in base + base';
      }
    }
  }

  lemma KeptContinue(carry: CarryInput, scanId: ScanId, id: Id)
    ensures AllContinueOneOf(CarriedRows(Kept(carry), scanId, id), carry.base)
  {
    PersistedAreStaying(carry.base, PlaceOf, CarryWith(Claims(carry.files)));
    forall k | 0 <= k < |Kept(carry)|
      ensures ContinuesOneOf(CarriedRows(Kept(carry), scanId, id)[k], carry.base)
    {
      FilterMembers(carry.base, Staying(PlaceOf, CarryWith(Claims(carry.files))));
      assert FindingsOf(Kept(carry))[k] in Filter(carry.base, Staying(PlaceOf, CarryWith(Claims(carry.files))));
    }
  }

  lemma ClosedContinue(closed: seq<Stored>, scanId: ScanId, id: Id, base: seq<Stored>)
    requires forall k :: 0 <= k < |closed| ==> closed[k] in base
    ensures AllContinueOneOf(ResolvedRows(closed, scanId, id), base)
  {
  }

  lemma PairsContinue(cs: seq<Content>, base: seq<Stored>, scanId: ScanId, id: Id)
    ensures AllContinueOneOf(PairRows(Pairs(cs, base, |cs|), scanId, id), base)
  {
    PairsAgree(cs, base, |cs|);
    forall k | 0 <= k < |Pairs(cs, base, |cs|)|
      ensures ContinuesOneOf(PairRows(Pairs(cs, base, |cs|), scanId, id)[k], base)
    {
      assert Pairs(cs, base, |cs|)[k].base in base;
    }
  }

  lemma UnmatchedAreBase(cs: seq<Content>, base: seq<Stored>)
    ensures forall k :: 0 <= k < |Unmatched(cs, base)| ==> Unmatched(cs, base)[k] in base
  {
    BasePartition(cs, base);
    forall k | 0 <= k < |Unmatched(cs, base)|
      ensures Unmatched(cs, base)[k] in base
    {
      assert Unmatched(cs, base)[k] in multiset(Unmatched(cs, base));
      assert Unmatched(cs, base)[k] in multiset(base);
    }
  }

  /** Two more blocks of rows, both continuing findings of `more`. */
  lemma JoinContinue(rows: seq<Row>, first: seq<Row>, second: seq<Row>, base: seq<Stored>, more: seq<Stored>)
    requires AllContinueOneOf(rows, base) && AllContinueOneOf(first, more) && AllContinueOneOf(second, more)
    ensures AllContinueOneOf(rows + first + second, base + more)
  {
    ContinueConcat(rows, first, base, more);
    ContinueConcat(rows + first, second, base + more, more);
    Widen(rows + first + second, base + more + more, base + more);
  }

  lemma ClosedAreCarried(carry: CarryInput)
    ensures forall k :: 0 <= k < |Closed(carry)| ==> Closed(carry)[k] in carry.base
  {
    FilterMembers(carry.base, Closing(PlaceOf, CarryWith(Claims(carry.files))));
    assert forall k :: 0 <= k < |Closed(carry)| ==> Closed(carry)[k] in Closed(carry);
  }

  lemma CarryContinues(p: Phase, carry: CarryInput, scanId: ScanId, id: Id, base: seq<Stored>)
    requires AllContinueOneOf(p.rows, base)
    ensures AllContinueOneOf(CarryPhase(p, carry, scanId, id).rows, base + carry.base)
  {
    var kept := CarriedRows(Kept(carry), scanId, id + |p.rows|);
    var closed := ResolvedRows(Closed(carry), scanId, id + |p.rows| + |kept|);
    KeptContinue(carry, scanId, id + |p.rows|);
    ClosedAreCarried(carry);
    ClosedContinue(Closed(carry), scanId, id + |p.rows| + |kept|, carry.base);
    JoinContinue(p.rows, kept, closed, base, carry.base);
  }

  lemma MatchContinues(p: Phase, base': seq<Stored>, scanId: ScanId, id: Id, base: seq<Stored>)
    requires AllContinueOneOf(p.rows, base)
    ensures AllContinueOneOf(MatchPhase(p, base', scanId, id).rows, base + base')
  {
    var paired := PairRows(Pairs(p.candidates, base', |p.candidates|), scanId, id + |p.rows|);
    var closed := ResolvedRows(Unmatched(p.candidates, base'), scanId, id + |p.rows| + |paired|);
    PairsContinue(p.candidates, base', scanId, id + |p.rows|);
    UnmatchedAreBase(p.candidates, base');
    ClosedContinue(Unmatched(p.candidates, base'), scanId, id + |p.rows| + |paired|, base');
    JoinContinue(p.rows, paired, closed, base, base');
  }

  lemma Widen(rows: seq<Row>, base: seq<Stored>, base': seq<Stored>)
    requires AllContinueOneOf(rows, base) && forall b :: b in base ==> b in base'
    ensures AllContinueOneOf(rows, base')
  {
    forall k | 0 <= k < |rows|
      ensures ContinuesOneOf(rows[k], base')
    {
      assert ContinuesOneOf(rows[k], base);
      var x :| x in base && rows[k].origin == Some(x.id) && rows[k].firstSeen == x.firstSeen;
      assert x in base';
    }
  }

  /** Every PERSISTED or RESOLVED row continues one of the base findings of the plan. */
  lemma FirstPhasesContinue(input: PlanInput, id: Id)
    ensures AllContinueOneOf(AfterMatch(input, id).rows, BaseOf(input))
  {
    assert [] + CarryBase(input) == CarryBase(input);
    if input.carry.Some? {
      CarryContinues(StartPhase(input), input.carry.value, input.scanId, id, []);
    }
    assert CarryBase(input) + [] == CarryBase(input);
    if input.matchBase.Some? {
      MatchContinues(AfterCarry(input, id), input.matchBase.value, input.scanId, id, CarryBase(input));
    }
  }

  // ----- what may be re-opened -----

  /** Every pool entry is a recent resolved finding or a RESOLVED row of this plan. */
  ghost predicate PoolOk(pool: seq<ResolvedFinding>, rows: seq<Row>, recent: seq<Stored>) {
    forall x :: x in pool ==> PoolEntry(x, rows, recent)
  }

  ghost predicate PoolEntry(x: ResolvedFinding, rows: seq<Row>, recent: seq<Stored>) {
    || (exists b :: b in recent && x == AsResolved(b))
    || (exists k :: 0 <= k < |rows| && rows[k].status == Resolved && x == AsResolvedRow(rows[k]))
  }

  lemma PoolGrows(pool: seq<ResolvedFinding>, rows: seq<Row>, recent: seq<Stored>, live: seq<Row>, closed: seq<Row>)
    requires PoolOk(pool, rows, recent)
    requires forall k :: 0 <= k < |closed| ==> closed[k].status == Resolved
    ensures PoolOk(pool + MapSeq(AsResolvedRow, closed), rows + live + closed, recent)
  {
    var rows' := rows + live + closed;
    forall x | x in pool + MapSeq(AsResolvedRow, closed)
      ensures PoolEntry(x, rows', recent)
    {
      if x in pool {
        if k :| 0 <= k < |rows| && rows[k].status == Resolved && x == AsResolvedRow(rows[k]) {
          assert rows'[k] == rows[k];
        }
      } else {
        var k :| 0 <= k < |closed| && x == MapSeq(AsResolvedRow, closed)[k];
        assert rows'[|rows| + |live| + k] == closed[k];
      }
    }
  }

  lemma PoolAfterFirstPhases(input: PlanInput, id: Id)
    ensures PoolOk(AfterMatch(input, id).pool, AfterMatch(input, id).rows, input.recentResolved)
  {
    var p0, p1 := StartPhase(input), AfterCarry(input, id);
    forall x | x in p0.pool
      ensures PoolEntry(x, [], input.recentResolved)
    {
      var k :| 0 <= k < |p0.pool| && x == p0.pool[k];
      assert x == AsResolved(input.recentResolved[k]);
    }
    if input.carry.Some? {
      CarryPool(p0, input.carry.value, input.scanId, id, input.recentResolved);
    }
    if input.matchBase.Some? {
      MatchPool(p1, input.matchBase.value, input.scanId, id, input.recentResolved);
    }
  }

  lemma CarryPool(p: Phase, carry: CarryInput, scanId: ScanId, id: Id, recent: seq<Stored>)
    requires PoolOk(p.pool, p.rows, recent)
    ensures PoolOk(CarryPhase(p, carry, scanId, id).pool, CarryPhase(p, carry, scanId, id).rows, recent)
  {
    var kept := CarriedRows(Kept(carry), scanId, id + |p.rows|);
    PoolGrows(p.pool, p.rows, recent, kept, ResolvedRows(Closed(carry), scanId, id + |p.rows| + |kept|));
  }

  lemma MatchPool(p: Phase, base: seq<Stored>, scanId: ScanId, id: Id, recent: seq<Stored>)
    requires PoolOk(p.pool, p.rows, recent)
    ensures PoolOk(MatchPhase(p, base, scanId, id).pool, MatchPhase(p, base, scanId, id).rows, recent)
  {
    var paired := PairRows(Pairs(p.candidates, base, |p.candidates|), scanId, id + |p.rows|);
    PoolGrows(p.pool, p.rows, recent, paired,
              ResolvedRows(Unmatched(p.candidates, base), scanId, id + |p.rows| + |paired|));
  }

  lemma ReopenedIsInPool(norm: string -> string, cs: seq<Content>, pool: seq<ResolvedFinding>, i: nat)
    requires i < |cs|
    ensures AllReopens(norm, cs, pool)[i].Some? ==> AllReopens(norm, cs, pool)[i].value in pool
  {
    ReopeningIsGreedy(norm, cs, pool, i);
    ReopeningConserves(norm, cs, pool, i);
    PartOfAll(ReopenedBy(norm, cs, pool, i), PoolAfter(norm, cs, pool, i), pool);
  }

  lemma PartOfAll<T>(a: seq<T>, b: seq<T>, all: seq<T>)
    requires MakeUp(a, b, all)
    ensures forall x :: x in b ==> x in all
  {
    forall x | x in b
      ensures x in all
    {
      assert x in multiset(b);
      assert x in multiset(all);
    }
  }

  /** A row of the last section is NEW, first seen here, or re-opens a pool entry. */
  ghost predicate LastRowOk(row: Row, scanId: ScanId, pool: seq<ResolvedFinding>) {
    || (row.status == New && row.origin.None? && row.firstSeen == scanId)
    || (row.status == Reopened && exists x :: x in pool && row.origin == Some(x.id) && row.firstSeen == x.firstSeen)
  }

  lemma LastRowsOk(norm: string -> string, p: Phase, already: Option<seq<string>>, scanId: ScanId, id: Id, k: nat)
    requires k < |LastRows(norm, p, already, scanId, id)|
    ensures LastRowOk(LastRows(norm, p, already, scanId, id)[k], scanId, p.pool)
  {
    var cs := Undropped(p.candidates, already);
    ReopenedIsInPool(norm, cs, p.pool, k);
    NewRowOk(cs, AllReopens(norm, cs, p.pool), scanId, id + |p.rows|, k, p.pool);
    hide AllReopens, Undropped, NewRows, LastRowOk;
  }

  lemma NewRowOk(
    cs: seq<Content>, reopens: seq<Option<ResolvedFinding>>, scanId: ScanId, id: Id, k: nat, pool: seq<ResolvedFinding>)
    requires k < |cs| == |reopens| && (reopens[k].Some? ==> reopens[k].value in pool)
    ensures LastRowOk(NewRows(cs, reopens, scanId, id)[k], scanId, pool)
  {
  }

  /** Every row of a plan: first seen here, or first seen when its origin was, the origin being a base
      finding, a recent resolved finding, or a RESOLVED row of the same plan. */
  ghost predicate RowOk(row: Row, rows: seq<Row>, input: PlanInput) {
    match row.status
    case New => row.origin.None? && row.firstSeen == input.scanId
    case Persisted => ContinuesOneOf(row, BaseOf(input))
    case Resolved => ContinuesOneOf(row, BaseOf(input))
    case Reopened => ContinuesOneOf(row, input.recentResolved) || ReopensOneOf(row, rows)
  }

  ghost predicate ReopensOneOf(row: Row, rows: seq<Row>) {
    exists k :: 0 <= k < |rows| && rows[k].status == Resolved && row.origin == Some(rows[k].id) && row.firstSeen == rows[k].firstSeen
  }

  lemma FirstRowInPlan(rows: seq<Row>, last: seq<Row>, input: PlanInput, k: nat)
    requires k < |rows| && OnlyContinues(rows) && AllContinueOneOf(rows, BaseOf(input))
    ensures RowOk(rows[k], rows + last, input)
  {
    assert ContinuesOneOf(rows[k], BaseOf(input));
  }

  lemma PlanRowOk(norm: string -> string, input: PlanInput, id: Id, k: nat)
    requires k < |Plan(norm, input, id)|
    ensures RowOk(Plan(norm, input, id)[k], Plan(norm, input, id), input)
  {
    var p := AfterMatch(input, id);
    var last := LastRows(norm, p, input.alreadyPersisted, input.scanId, id);
    FirstPhasesOnlyContinue(input, id);
    FirstPhasesContinue(input, id);
    PoolAfterFirstPhases(input, id);
    forall j | 0 <= j < |last|
      ensures LastRowOk(last[j], input.scanId, p.pool)
    {
      LastRowsOk(norm, p, input.alreadyPersisted, input.scanId, id, j);
    }
    SectionRowOk(p, last, input, k);
    hide AfterMatch, LastRows, RowOk, LastRowOk, PoolOk, OnlyContinues, AllContinueOneOf;
  }

  lemma SectionRowOk(p: Phase, last: seq<Row>, input: PlanInput, k: nat)
    requires OnlyContinues(p.rows) && AllContinueOneOf(p.rows, BaseOf(input))
    requires PoolOk(p.pool, p.rows, input.recentResolved)
    requires forall j :: 0 <= j < |last| ==> LastRowOk(last[j], input.scanId, p.pool)
    requires k < |p.rows + last|
    ensures RowOk((p.rows + last)[k], p.rows + last, input)
  {
    hide *;
    if k < |p.rows| {
      FirstRowInPlan(p.rows, last, input, k);
    } else {
      LastRowInPlan(last[k - |p.rows|], p, last, input);
    }
  }

  lemma LastRowInPlan(row: Row, p: Phase, last: seq<Row>, input: PlanInput)
    requires LastRowOk(row, input.scanId, p.pool) && PoolOk(p.pool, p.rows, input.recentResolved)
    ensures RowOk(row, p.rows + last, input)
  {
    if row.status == Reopened {
      var x :| x in p.pool && row.origin == Some(x.id) && row.firstSeen == x.firstSeen;
      if k :| 0 <= k < |p.rows| && p.rows[k].status == Resolved && x == AsResolvedRow(p.rows[k]) {
        assert (p.rows + last)[k] == p.rows[k];
      }
    }
  }

  // ----- fingerprints of live rows -----

  function IsLive(row: Row): bool {
    row.status != Resolved
  }

  function LiveFingerprints(rows: seq<Row>): seq<string> {
    MapSeq(RowFingerprint, Filter(rows, IsLive))
  }

  lemma {:induction false} AllLive(rows: seq<Row>)
    ensures (forall k :: 0 <= k < |rows| ==> IsLive(rows[k])) ==> Filter(rows, IsLive) == rows
    ensures (forall k :: 0 <= k < |rows| ==> !IsLive(rows[k])) ==> Filter(rows, IsLive) == []
  {
    if rows != [] {
      AllLive(rows[..|rows| - 1]);
      assert rows == rows[..|rows| - 1] + [rows[|rows| - 1]];
    }
  }

  lemma LiveSections(rows: seq<Row>, live: seq<Row>, closed: seq<Row>)
    requires forall k :: 0 <= k < |live| ==> IsLive(live[k])
    requires forall k :: 0 <= k < |closed| ==> !IsLive(closed[k])
    ensures LiveFingerprints(rows + live + closed) == LiveFingerprints(rows) + MapSeq(RowFingerprint, live)
  {
    AllLive(live);
    AllLive(closed);
    FilterConcat(rows, live, IsLive);
    FilterConcat(rows + live, closed, IsLive);
    MapConcat(RowFingerprint, Filter(rows, IsLive), live);
  }

  function KeptFps(input: PlanInput): seq<string> {
    if input.carry.Some? then MapSeq(StoredFingerprint, FindingsOf(Kept(input.carry.value))) else []
  }

  lemma CarriedFps(carried: seq<Carried<Stored>>, scanId: ScanId, id: Id)
    ensures MapSeq(RowFingerprint, CarriedRows(carried, scanId, id)) == MapSeq(StoredFingerprint, FindingsOf(carried))
  {
  }

  lemma PairFps(pairs: seq<Pair>, scanId: ScanId, id: Id)
    ensures MapSeq(RowFingerprint, PairRows(pairs, scanId, id)) == MapSeq(ContentFingerprint, Candidates(pairs))
  {
  }

  lemma CarryPhaseLive(p: Phase, carry: CarryInput, scanId: ScanId, id: Id)
    ensures LiveFingerprints(CarryPhase(p, carry, scanId, id).rows)
         == LiveFingerprints(p.rows) + MapSeq(StoredFingerprint, FindingsOf(Kept(carry)))
  {
    var kept := CarriedRows(Kept(carry), scanId, id + |p.rows|);
    LiveSections(p.rows, kept, ResolvedRows(Closed(carry), scanId, id + |p.rows| + |kept|));
    CarriedFps(Kept(carry), scanId, id + |p.rows|);
  }

  lemma MatchPhaseLive(p: Phase, base: seq<Stored>, scanId: ScanId, id: Id)
    ensures LiveFingerprints(MatchPhase(p, base, scanId, id).rows)
         == LiveFingerprints(p.rows) + MapSeq(ContentFingerprint, Candidates(Pairs(p.candidates, base, |p.candidates|)))
  {
    var pairs := Pairs(p.candidates, base, |p.candidates|);
    var paired := PairRows(pairs, scanId, id + |p.rows|);
    LiveSections(p.rows, paired, ResolvedRows(Unmatched(p.candidates, base), scanId, id + |p.rows| + |paired|));
    PairFps(pairs, scanId, id + |p.rows|);
  }

  lemma LastFps(cs: seq<Content>, reopens: seq<Option<ResolvedFinding>>, scanId: ScanId, id: Id)
    requires |reopens| == |cs|
    ensures MapSeq(RowFingerprint, NewRows(cs, reopens, scanId, id)) == MapSeq(ContentFingerprint, cs)
    ensures forall k :: 0 <= k < |cs| ==> IsLive(NewRows(cs, reopens, scanId, id)[k])
  {
  }

  lemma LastLive(rows: seq<Row>, last: seq<Row>)
    requires forall k :: 0 <= k < |last| ==> IsLive(last[k])
    ensures LiveFingerprints(rows + last) == LiveFingerprints(rows) + MapSeq(RowFingerprint, last)
  {
    LiveSections(rows, last, []);
    assert rows + last + [] == rows + last;
  }

  /** The live rows of a plan carry the kept, the paired and the left-over fingerprints. */
  lemma PlanLive(norm: string -> string, input: PlanInput, id: Id)
    ensures LiveFingerprints(Plan(norm, input, id))
         == KeptFps(input) + MapSeq(ContentFingerprint, PairedCandidates(input, id))
            + MapSeq(ContentFingerprint, LastContents(input, id))
  {
    FirstPhasesLive(input, id);
    PhaseLive(norm, AfterMatch(input, id), input.alreadyPersisted, input.scanId, id);
  }

  lemma PhaseLive(norm: string -> string, p: Phase, already: Option<seq<string>>, scanId: ScanId, id: Id)
    ensures LiveFingerprints(p.rows + LastRows(norm, p, already, scanId, id))
         == LiveFingerprints(p.rows) + MapSeq(ContentFingerprint, Undropped(p.candidates, already))
  {
    hide AllReopens, NewRows, Undropped, LiveFingerprints, MapSeq;
    var cs := Undropped(p.candidates, already);
    LastFps(cs, AllReopens(norm, cs, p.pool), scanId, id + |p.rows|);
    LastLive(p.rows, LastRows(norm, p, already, scanId, id));
  }

  lemma FirstPhasesLive(input: PlanInput, id: Id)
    ensures LiveFingerprints(AfterMatch(input, id).rows)
         == KeptFps(input) + MapSeq(ContentFingerprint, PairedCandidates(input, id))
  {
    assert LiveFingerprints([]) == [];
    if input.carry.Some? {
      CarryPhaseLive(StartPhase(input), input.carry.value, input.scanId, id);
    }
    assert LiveFingerprints(AfterCarry(input, id).rows) == KeptFps(input);
    if input.matchBase.Some? {
      MatchPhaseLive(AfterCarry(input, id), input.matchBase.value, input.scanId, id);
    }
  }

  /** Fingerprints a carry keeps are distinct when the carried base's are. */
  lemma KeptDistinct(input: PlanInput)
    requires Distinct(MapSeq(StoredFingerprint, CarryBase(input)))
    ensures Distinct(KeptFps(input))
    ensures forall f :: f in KeptFps(input) ==> f in KeptFingerprints(input)
  {
    if input.carry.Some? {
      var carry := input.carry.value;
      CarryPartitions(carry.base, PlaceOf, CarryWith(Claims(carry.files)));
      SplitMaps(StoredFingerprint, carry.base, FindingsOf(Kept(carry)), Closed(carry));
      DistinctPart(MapSeq(StoredFingerprint, FindingsOf(Kept(carry))), MapSeq(StoredFingerprint, Closed(carry)),
                   MapSeq(StoredFingerprint, carry.base));
      forall f | f in KeptFps(input)
        ensures f in KeptFingerprints(input)
      {
        var k :| 0 <= k < |KeptFps(input)| && KeptFps(input)[k] == f;
        assert FindingsOf(Kept(carry))[k] in FindingsOf(Kept(carry));
      }
    }
  }

  /** Fingerprints of the paired and left-over candidates are distinct when the candidates' are. */
  lemma WrittenDistinct(input: PlanInput, id: Id)
    requires Distinct(MapSeq(ContentFingerprint, input.candidates))
    ensures Distinct(MapSeq(ContentFingerprint, PairedCandidates(input, id) + LastContents(input, id)))
  {
    CandidatesAddUp(input, id);
    var written := PairedCandidates(input, id) + LastContents(input, id);
    MapSameElements(ContentFingerprint, written + Dropped(input, id), input.candidates);
    MapConcat(ContentFingerprint, written, Dropped(input, id));
    DistinctPart(MapSeq(ContentFingerprint, written), MapSeq(ContentFingerprint, Dropped(input, id)),
                 MapSeq(ContentFingerprint, input.candidates));
  }

  lemma KeptAndWrittenApart(input: PlanInput, id: Id, f: string)
    requires Distinct(MapSeq(StoredFingerprint, CarryBase(input)))
    requires f in KeptFps(input)
    ensures f !in MapSeq(ContentFingerprint, PairedCandidates(input, id) + LastContents(input, id))
  {
    KeptDistinct(input);
    var written := PairedCandidates(input, id) + LastContents(input, id);
    forall k | 0 <= k < |written|
      ensures written[k].fingerprint != f
    {
      DroppedExactlyWhenPersisted(input, id, written[k]);
    }
  }

  lemma JoinDistinct(kept: seq<string>, paired: seq<Content>, left: seq<Content>)
    requires Distinct(kept) && Distinct(MapSeq(ContentFingerprint, paired + left))
    requires forall f :: f in kept ==> f !in MapSeq(ContentFingerprint, paired + left)
    ensures Distinct(kept + MapSeq(ContentFingerprint, paired) + MapSeq(ContentFingerprint, left))
  {
    MapConcat(ContentFingerprint, paired, left);
    DistinctConcat(kept, MapSeq(ContentFingerprint, paired + left));
    assert kept + MapSeq(ContentFingerprint, paired) + MapSeq(ContentFingerprint, left)
        == kept + MapSeq(ContentFingerprint, paired + left);
  }

  /** No double counting in one plan: when the carried base and the candidates each have distinct
      fingerprints, so have the live rows. */
  lemma PlanLiveDistinct(norm: string -> string, input: PlanInput, id: Id)
    requires Distinct(MapSeq(StoredFingerprint, CarryBase(input)))
    requires Distinct(MapSeq(ContentFingerprint, input.candidates))
    ensures Distinct(LiveFingerprints(Plan(norm, input, id)))
  {
    var paired, left := PairedCandidates(input, id), LastContents(input, id);
    KeptDistinct(input);
    WrittenDistinct(input, id);
    forall f | f in KeptFps(input)
      ensures f !in MapSeq(ContentFingerprint, paired + left)
    {
      KeptAndWrittenApart(input, id, f);
    }
    JoinDistinct(KeptFps(input), paired, left);
    PlanLive(norm, input, id);
  }
}
