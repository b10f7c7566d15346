/** What the rows of a plan say, status by status: src/queue/lifecycle/plan-findings.ts. */
module PlanContents {
  import opened Seqs
  import opened Findings
  import opened CarryForward
  import opened StatusMatcher
  import opened PlanFindings
  import opened PlanProperties

  predicate IsPersistedRow(row: Row) {
    row.status == Persisted
  }

  /** A row written for a candidate nothing continues. */
  predicate IsWritten(row: Row) {
    row.status == New || row.status == Reopened
  }

  function PersistedContents(rows: seq<Row>): seq<Content> {
    MapSeq(RowContent, Filter(rows, IsPersistedRow))
  }

  function WrittenContents(rows: seq<Row>): seq<Content> {
    MapSeq(RowContent, Filter(rows, IsWritten))
  }

  /** A base finding as it stands after the push. */
  function Moved(c: Carried<Stored>): Content {
    c.finding.content.(filePath := c.place.filePath, lineStart := c.place.lineStart, lineEnd := c.place.lineEnd)
  }

  /** The base findings a carry keeps, where they are now. */
  function CarriedContents(input: PlanInput): seq<Content> {
    if input.carry.Some? then MapSeq(Moved, Kept(input.carry.value)) else []
  }

  lemma {:induction false} FilterAllOrNone(rows: seq<Row>, p: Row -> bool)
    ensures (forall k :: 0 <= k < |rows| ==> p(rows[k])) ==> Filter(rows, p) == rows
    ensures (forall k :: 0 <= k < |rows| ==> !p(rows[k])) ==> Filter(rows, p) == []
  {
    if rows != [] {
      FilterAllOrNone(rows[..|rows| - 1], p);
      assert rows == rows[..|rows| - 1] + [rows[|rows| - 1]];
    }
  }

  /** A section of rows of which all are wanted, and one of which none is. */
  lemma SectionsContents(rows: seq<Row>, wanted: seq<Row>, unwanted: seq<Row>, p: Row -> bool)
    requires forall k :: 0 <= k < |wanted| ==> p(wanted[k])
    requires forall k :: 0 <= k < |unwanted| ==> !p(unwanted[k])
    ensures MapSeq(RowContent, Filter(rows + wanted + unwanted, p)) ==
            MapSeq(RowContent, Filter(rows, p)) + MapSeq(RowContent, wanted)
  {
    FilterAllOrNone(wanted, p);
    FilterAllOrNone(unwanted, p);
    FilterConcat(rows, wanted, p);
    FilterConcat(rows + wanted, unwanted, p);
    MapConcat(RowContent, Filter(rows, p), wanted);
  }

  lemma CarrySays(p: Phase, carry: CarryInput, scanId: ScanId, id: Id)
    ensures PersistedContents(CarryPhase(p, carry, scanId, id).rows) ==
            PersistedContents(p.rows) + MapSeq(Moved, Kept(carry))
  {
    hide CarriedRows, ResolvedRows, Kept, Closed, PersistedContents;
    KeptThenClosed(p.rows, Kept(carry), Closed(carry), scanId, id);
  }

  lemma KeptThenClosed(rows: seq<Row>, kept: seq<Carried<Stored>>, closed: seq<Stored>, scanId: ScanId, id: Id)
    ensures var carried := CarriedRows(kept, scanId, id + |rows|);
            PersistedContents(rows + carried + ResolvedRows(closed, scanId, id + |rows| + |carried|)) ==
            PersistedContents(rows) + MapSeq(Moved, kept)
  {
    var carried := CarriedRows(kept, scanId, id + |rows|);
    KeptSay(kept, scanId, id + |rows|);
    NoneClosedPersists(closed, scanId, id + |rows| + |carried|);
    hide CarriedRows, ResolvedRows, MapSeq, Filter;
    SectionsContents(rows, carried, ResolvedRows(closed, scanId, id + |rows| + |carried|), IsPersistedRow);
  }

  lemma KeptSay(kept: seq<Carried<Stored>>, scanId: ScanId, id: Id)
    ensures MapSeq(RowContent, CarriedRows(kept, scanId, id)) == MapSeq(Moved, kept)
    ensures forall k :: 0 <= k < |kept| ==> IsPersistedRow(CarriedRows(kept, scanId, id)[k])
  {
  }

  lemma MatchSays(p: Phase, base: seq<Stored>, scanId: ScanId, id: Id)
    ensures PersistedContents(MatchPhase(p, base, scanId, id).rows) ==
            PersistedContents(p.rows) + Candidates(Pairs(p.candidates, base, |p.candidates|))
  {
    hide PairRows, ResolvedRows, Pairs, Unmatched, Candidates, PersistedContents;
    PairsThenClosed(p.rows, Pairs(p.candidates, base, |p.candidates|), Unmatched(p.candidates, base), scanId, id);
  }

  lemma PairsThenClosed(rows: seq<Row>, pairs: seq<Pair>, unmatched: seq<Stored>, scanId: ScanId, id: Id)
    ensures var paired := PairRows(pairs, scanId, id + |rows|);
            PersistedContents(rows + paired + ResolvedRows(unmatched, scanId, id + |rows| + |paired|)) ==
            PersistedContents(rows) + Candidates(pairs)
  {
    var paired := PairRows(pairs, scanId, id + |rows|);
    PairsSay(pairs, scanId, id + |rows|);
    NoneClosedPersists(unmatched, scanId, id + |rows| + |paired|);
    hide PairRows, ResolvedRows, MapSeq, Candidates, Filter;
    SectionsContents(rows, paired, ResolvedRows(unmatched, scanId, id + |rows| + |paired|), IsPersistedRow);
  }

  lemma PairsSay(pairs: seq<Pair>, scanId: ScanId, id: Id)
    ensures MapSeq(RowContent, PairRows(pairs, scanId, id)) == Candidates(pairs)
    ensures forall k :: 0 <= k < |pairs| ==> IsPersistedRow(PairRows(pairs, scanId, id)[k])
  {
  }

  lemma NoneClosedPersists(closed: seq<Stored>, scanId: ScanId, id: Id)
    ensures forall k :: 0 <= k < |closed| ==> !IsPersistedRow(ResolvedRows(closed, scanId, id)[k])
  {
  }

  lemma FirstPhasesSay(input: PlanInput, id: Id)
    ensures PersistedContents(AfterMatch(input, id).rows) == CarriedContents(input) + PairedCandidates(input, id)
  {
    CarriedSay(input, id);
    hide CarryPhase, MatchPhase, CarriedContents, PersistedContents;
    if input.matchBase.Some? {
      MatchSays(AfterCarry(input, id), input.matchBase.value, input.scanId, id);
    }
  }

  lemma CarriedSay(input: PlanInput, id: Id)
    ensures PersistedContents(AfterCarry(input, id).rows) == CarriedContents(input)
  {
    assert PersistedContents([]) == [];
    if input.carry.Some? {
      CarrySays(StartPhase(input), input.carry.value, input.scanId, id);
    }
  }

  /** The rows of the last section are those written for candidates, and say what these say. */
  lemma LastSays(rows: seq<Row>, cs: seq<Content>, reopens: seq<Option<ResolvedFinding>>, scanId: ScanId, id: Id)
    requires OnlyContinues(rows) && |cs| == |reopens|
    ensures WrittenContents(rows + NewRows(cs, reopens, scanId, id)) == cs
    ensures PersistedContents(rows + NewRows(cs, reopens, scanId, id)) == PersistedContents(rows)
  {
    var last := NewRows(cs, reopens, scanId, id);
    FilterAllOrNone(rows, IsWritten);
    assert forall k :: 0 <= k < |last| ==> IsWritten(last[k]) && !IsPersistedRow(last[k]) && RowContent(last[k]) == cs[k];
    assert MapSeq(RowContent, last) == cs;
    assert MapSeq(RowContent, []) == [];
    hide NewRows, OnlyContinues, Filter, MapSeq;
    SectionsContents(rows, last, [], IsWritten);
    SectionsContents(rows, [], last, IsPersistedRow);
    assert rows + last + [] == rows + last == rows + [] + last;
  }

  /** The PERSISTED rows of a plan are the carried base findings and the paired candidates; its NEW and
      REOPENED rows are the candidates left over; both in order. */
  lemma PlanSays(norm: string -> string, input: PlanInput, id: Id)
    ensures PersistedContents(Plan(norm, input, id)) == CarriedContents(input) + PairedCandidates(input, id)
    ensures WrittenContents(Plan(norm, input, id)) == LastContents(input, id)
  {
    var p := AfterMatch(input, id);
    var cs := LastContents(input, id);
    FirstPhasesOnlyContinue(input, id);
    FirstPhasesSay(input, id);
    hide AfterMatch, PersistedContents, WrittenContents, OnlyContinues, AllReopens, NewRows;
    LastSays(p.rows, cs, AllReopens(norm, cs, p.pool), input.scanId, id + |p.rows|);
  }

  /** Planning conserves candidates: besides the carried base findings, the PERSISTED, NEW and REOPENED
      rows of a plan say what its candidates say, each as often as it came in, but for those dropped. */
  lemma PlanConservesCandidates(norm: string -> string, input: PlanInput, id: Id)
    ensures var rows := Plan(norm, input, id);
            SameElements(PersistedContents(rows) + WrittenContents(rows) + Dropped(input, id),
                         CarriedContents(input) + input.candidates)
  {
    PlanSays(norm, input, id);
    CandidatesAddUp(input, id);
    hide Plan, PersistedContents, WrittenContents, CarriedContents, PairedCandidates, LastContents, Dropped;
    BehindCarried(CarriedContents(input), PairedCandidates(input, id), LastContents(input, id), Dropped(input, id),
                  input.candidates);
  }

  lemma BehindCarried<T>(carried: seq<T>, a: seq<T>, b: seq<T>, c: seq<T>, all: seq<T>)
    requires SameElements(a + b + c, all)
    ensures SameElements((carried + a) + b + c, carried + all)
  {
    assert (carried + a) + b + c == carried + (a + b + c);
  }
}
