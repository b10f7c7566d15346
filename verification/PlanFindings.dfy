/** Statuses and provenance of every row of a scan: src/queue/lifecycle/plan-findings.ts. */
module PlanFindings {
  import opened Seqs
  import opened Findings
  import opened CarryForward
  import opened StatusMatcher

  datatype CarryInput = CarryInput(base: seq<Stored>, files: seq<CarryFile>)

  datatype PlanInput = PlanInput(
    scanId: ScanId,
    candidates: seq<Content>,
    carry: Option<CarryInput>,
    matchBase: Option<seq<Stored>>,
    alreadyPersisted: Option<seq<string>>,
    recentResolved: seq<Stored>)

  function PlaceOf(s: Stored): Place {
    Place(s.content.filePath, s.content.lineStart, s.content.lineEnd)
  }

  function FromStored(base: Stored, scanId: ScanId, status: Status, at: Place, id: Id): Row {
    Row(id,
        base.content.(filePath := at.filePath, lineStart := at.lineStart, lineEnd := at.lineEnd),
        base.rerun,
        status,
        base.firstSeen,
        Some(base.id),
        if status == Resolved then Some(scanId) else None)
  }

  datatype Origin = Origin(id: Id, firstSeen: ScanId)

  function FromCandidate(c: Content, scanId: ScanId, status: Status, origin: Option<Origin>, id: Id): Row {
    Row(id, c, NO_RERUN, status,
        if origin.Some? then origin.value.firstSeen else scanId,
        if origin.Some? then Some(origin.value.id) else None,
        None)
  }

  // ----- the sections of a plan, in the order they are written -----

  function CarriedRows(carried: seq<Carried<Stored>>, scanId: ScanId, id: Id): (r: seq<Row>)
    ensures |r| == |carried|
  {
    seq(|carried|, k requires 0 <= k < |carried| =>
      FromStored(carried[k].finding, scanId, Persisted, carried[k].place, id + k))
  }

  function ResolvedRows(stored: seq<Stored>, scanId: ScanId, id: Id): (r: seq<Row>)
    ensures |r| == |stored|
  {
    seq(|stored|, k requires 0 <= k < |stored| => FromStored(stored[k], scanId, Resolved, PlaceOf(stored[k]), id + k))
  }

  function PairRows(pairs: seq<Pair>, scanId: ScanId, id: Id): (r: seq<Row>)
    ensures |r| == |pairs|
  {
    seq(|pairs|, k requires 0 <= k < |pairs| =>
      FromCandidate(pairs[k].candidate, scanId, Persisted, Some(Origin(pairs[k].base.id, pairs[k].base.firstSeen)), id + k))
  }

  function NewRow(c: Content, reopens: Option<ResolvedFinding>, scanId: ScanId, id: Id): Row {
    if reopens.Some? then FromCandidate(c, scanId, Reopened, Some(Origin(reopens.value.id, reopens.value.firstSeen)), id)
    else FromCandidate(c, scanId, New, None, id)
  }

  function NewRows(cs: seq<Content>, reopens: seq<Option<ResolvedFinding>>, scanId: ScanId, id: Id): (r: seq<Row>)
    requires |reopens| == |cs|
    ensures |r| == |cs|
  {
    seq(|cs|, k requires 0 <= k < |cs| => NewRow(cs[k], reopens[k], scanId, id + k))
  }

  function AsResolvedRow(row: Row): ResolvedFinding {
    AsResolved(AsStored(row))
  }

  /** Where a plan stands between two phases. */
  datatype Phase = Phase(rows: seq<Row>, candidates: seq<Content>, pool: seq<ResolvedFinding>)

  function StartPhase(input: PlanInput): Phase {
    Phase([], input.candidates, MapSeq(AsResolved, input.recentResolved))
  }

  function Kept(carry: CarryInput): seq<Carried<Stored>> {
    PersistedOf(carry.base, PlaceOf, CarryWith(Claims(carry.files)))
  }

  function Closed(carry: CarryInput): seq<Stored> {
    ResolvedOf(carry.base, PlaceOf, CarryWith(Claims(carry.files)))
  }

  function Fingerprints(stored: seq<Stored>): set<string> {
    set s | s in stored :: s.content.fingerprint
  }

  function CarryPhase(p: Phase, carry: CarryInput, scanId: ScanId, id: Id): Phase {
    var kept := CarriedRows(Kept(carry), scanId, id + |p.rows|);
    var closed := ResolvedRows(Closed(carry), scanId, id + |p.rows| + |kept|);
    Phase(p.rows + kept + closed,
          DropPersistedDuplicates(p.candidates, Fingerprints(FindingsOf(Kept(carry)))),
          p.pool + MapSeq(AsResolvedRow, closed))
  }

  function MatchPhase(p: Phase, base: seq<Stored>, scanId: ScanId, id: Id): Phase {
    var pairs := PairRows(Pairs(p.candidates, base, |p.candidates|), scanId, id + |p.rows|);
    var closed := ResolvedRows(Unmatched(p.candidates, base), scanId, id + |p.rows| + |pairs|);
    Phase(p.rows + pairs + closed, Fresh(p.candidates, base, |p.candidates|), p.pool + MapSeq(AsResolvedRow, closed))
  }

  function AfterCarry(input: PlanInput, id: Id): Phase {
    if input.carry.Some? then CarryPhase(StartPhase(input), input.carry.value, input.scanId, id) else StartPhase(input)
  }

  function AfterMatch(input: PlanInput, id: Id): Phase {
    var p := AfterCarry(input, id);
    if input.matchBase.Some? then MatchPhase(p, input.matchBase.value, input.scanId, id) else p
  }

  function AsSet(fps: seq<string>): set<string> {
    set f | f in fps
  }

  function Undropped(cs: seq<Content>, alreadyPersisted: Option<seq<string>>): seq<Content> {
    if alreadyPersisted.Some? then DropPersistedDuplicates(cs, AsSet(alreadyPersisted.value)) else cs
  }

  /** The rows of the candidates a phase leaves over. */
  ghost function LastRows(norm: string -> string, p: Phase, alreadyPersisted: Option<seq<string>>, scanId: ScanId, id: Id): seq<Row> {
    var cs := Undropped(p.candidates, alreadyPersisted);
    NewRows(cs, AllReopens(norm, cs, p.pool), scanId, id + |p.rows|)
  }

  ghost function Plan(norm: string -> string, input: PlanInput, id: Id): seq<Row> {
    var p := AfterMatch(input, id);
    p.rows + LastRows(norm, p, input.alreadyPersisted, input.scanId, id)
  }

  function IsNew(row: Row): bool {
    row.status == New
  }

  function RowFingerprint(row: Row): string {
    row.content.fingerprint
  }

  // ----- the procedure -----

  method PushCarried(rows0: seq<Row>, carried: seq<Carried<Stored>>, scanId: ScanId, id: Id) returns (rows: seq<Row>)
    ensures rows == rows0 + CarriedRows(carried, scanId, id + |rows0|)
  {
    rows := rows0;
    for i := 0 to |carried|
      invariant rows == rows0 + CarriedRows(carried, scanId, id + |rows0|)[..i]
    {
      rows := rows + [FromStored(carried[i].finding, scanId, Persisted, carried[i].place, id + |rows|)];
    }
  }

  method PushResolved(rows0: seq<Row>, pool0: seq<ResolvedFinding>, resolved: seq<Stored>, scanId: ScanId, id: Id)
    returns (rows: seq<Row>, pool: seq<ResolvedFinding>)
    ensures rows == rows0 + ResolvedRows(resolved, scanId, id + |rows0|)
    ensures pool == pool0 + MapSeq(AsResolvedRow, ResolvedRows(resolved, scanId, id + |rows0|))
  {
    rows, pool := rows0, pool0;
    ghost var all := ResolvedRows(resolved, scanId, id + |rows0|);
    for i := 0 to |resolved|
      invariant rows == rows0 + all[..i]
      invariant pool == pool0 + MapSeq(AsResolvedRow, all)[..i]
    {
      var row := FromStored(resolved[i], scanId, Resolved, PlaceOf(resolved[i]), id + |rows|);
      assert row == all[i];
      rows := rows + [row];
      pool := pool + [AsResolvedRow(row)];
    }
  }

  method PushPairs(rows0: seq<Row>, pairs: seq<Pair>, scanId: ScanId, id: Id) returns (rows: seq<Row>)
    ensures rows == rows0 + PairRows(pairs, scanId, id + |rows0|)
  {
    rows := rows0;
    for i := 0 to |pairs|
      invariant rows == rows0 + PairRows(pairs, scanId, id + |rows0|)[..i]
    {
      var origin := Origin(pairs[i].base.id, pairs[i].base.firstSeen);
      rows := rows + [FromCandidate(pairs[i].candidate, scanId, Persisted, Some(origin), id + |rows|)];
    }
  }

  /** The fingerprints of the new rows, in order. */
  function NewFingerprints(rows: seq<Row>): seq<string> {
    MapSeq(RowFingerprint, Filter(rows, IsNew))
  }

  method PushLast(rows0: seq<Row>, cs: seq<Content>, reopens: seq<Option<ResolvedFinding>>, scanId: ScanId, id: Id)
    returns (rows: seq<Row>, newFingerprints: seq<string>)
    requires |reopens| == |cs|
    ensures rows == rows0 + NewRows(cs, reopens, scanId, id + |rows0|)
    ensures newFingerprints == NewFingerprints(NewRows(cs, reopens, scanId, id + |rows0|))
  {
    rows, newFingerprints := rows0, [];
    ghost var all := NewRows(cs, reopens, scanId, id + |rows0|);
    assert Pushed(rows0, all, 0, rows, newFingerprints);
    hide NewRows, Pushed;
    for i := 0 to |cs|
      invariant |rows| == |rows0| + i
      invariant Pushed(rows0, all, i, rows, newFingerprints)
    {
      PushedStep(rows0, all, i, rows, newFingerprints);
      NewRowsAt(cs, reopens, scanId, id + |rows0|, i);
      if reopens[i].Some? {
        var origin := Origin(reopens[i].value.id, reopens[i].value.firstSeen);
        rows := rows + [FromCandidate(cs[i], scanId, Reopened, Some(origin), id + |rows|)];
      } else {
        rows := rows + [FromCandidate(cs[i], scanId, New, None, id + |rows|)];
        newFingerprints := newFingerprints + [cs[i].fingerprint];
      }
    }
    PushedAll(rows0, all, rows, newFingerprints);
  }

  /** The first n of the rows are pushed, and the fingerprints of the NEW ones among them. */
  ghost predicate Pushed(rows0: seq<Row>, all: seq<Row>, n: nat, rows: seq<Row>, newFingerprints: seq<string>) {
    n <= |all| && rows == rows0 + all[..n] && newFingerprints == NewFingerprints(all[..n])
  }

  lemma PushedStep(rows0: seq<Row>, all: seq<Row>, n: nat, rows: seq<Row>, newFingerprints: seq<string>)
    requires n < |all| && Pushed(rows0, all, n, rows, newFingerprints)
    ensures Pushed(rows0, all, n + 1, rows + [all[n]],
                   if IsNew(all[n]) then newFingerprints + [all[n].content.fingerprint] else newFingerprints)
  {
    assert all[..n + 1] == all[..n] + [all[n]];
    FilterSnoc(all[..n], all[n], IsNew);
  }

  lemma PushedAll(rows0: seq<Row>, all: seq<Row>, rows: seq<Row>, newFingerprints: seq<string>)
    requires Pushed(rows0, all, |all|, rows, newFingerprints)
    ensures rows == rows0 + all && newFingerprints == NewFingerprints(all)
  {
    assert all[..|all|] == all;
  }

  lemma NewRowsAt(cs: seq<Content>, reopens: seq<Option<ResolvedFinding>>, scanId: ScanId, id: Id, k: nat)
    requires k < |cs| == |reopens|
    ensures NewRows(cs, reopens, scanId, id)[k] == NewRow(cs[k], reopens[k], scanId, id + k)
  {
  }

  /** Incremental: base findings go through the diff. */
  method CarryStep(carry: CarryInput, candidates0: seq<Content>, pool0: seq<ResolvedFinding>, scanId: ScanId, id: Id)
    returns (rows: seq<Row>, candidates: seq<Content>, pool: seq<ResolvedFinding>)
    ensures Phase(rows, candidates, pool) == CarryPhase(Phase([], candidates0, pool0), carry, scanId, id)
  {
    var persisted, resolved := CarryAll(carry.base, PlaceOf, carry.files);
    rows := PushCarried([], persisted, scanId, id);
    rows, pool := PushResolved(rows, pool0, resolved, scanId, id);
    candidates := DropPersistedDuplicates(candidates0, Fingerprints(FindingsOf(persisted)));
  }

  /** Full with a base: base findings are matched to the candidates by fingerprint. */
  method MatchStep(base: seq<Stored>, rows0: seq<Row>, candidates0: seq<Content>, pool0: seq<ResolvedFinding>,
                   scanId: ScanId, id: Id)
    returns (rows: seq<Row>, candidates: seq<Content>, pool: seq<ResolvedFinding>)
    ensures Phase(rows, candidates, pool) == MatchPhase(Phase(rows0, candidates0, pool0), base, scanId, id)
  {
    var persisted, unpaired, resolved := MatchFullAgainstBase(candidates0, base);
    rows := PushPairs(rows0, persisted, scanId, id);
    rows, pool := PushResolved(rows, pool0, resolved, scanId, id);
    candidates := unpaired;
  }

  /** What is left over: NEW or REOPENED. */
  method LastStep(norm: string -> string, p: Phase, alreadyPersisted: Option<seq<string>>, scanId: ScanId, id: Id)
    returns (rows: seq<Row>, newFingerprints: seq<string>)
    ensures rows == p.rows + LastRows(norm, p, alreadyPersisted, scanId, id)
    ensures newFingerprints == NewFingerprints(LastRows(norm, p, alreadyPersisted, scanId, id))
  {
    hide NewRows, AllReopens, NewFingerprints;
    var candidates := Undropped(p.candidates, alreadyPersisted);
    rows, newFingerprints := PushNewOrReopened(norm, p.rows, candidates, p.pool, scanId, id);
  }

  method PushNewOrReopened(
    norm: string -> string, rows0: seq<Row>, cs: seq<Content>, pool: seq<ResolvedFinding>, scanId: ScanId, id: Id)
    returns (rows: seq<Row>, newFingerprints: seq<string>)
    ensures rows == rows0 + NewRows(cs, AllReopens(norm, cs, pool), scanId, id + |rows0|)
    ensures newFingerprints == NewFingerprints(NewRows(cs, AllReopens(norm, cs, pool), scanId, id + |rows0|))
  {
    var reopens := AssignNewOrReopened(norm, cs, pool);
    ghost var all := AllReopens(norm, cs, pool);
    assert reopens == all;
    rows, newFingerprints := PushLast(rows0, cs, reopens, scanId, id);
  }

  method FirstSteps(input: PlanInput, firstId: Id) returns (p: Phase)
    ensures p == AfterMatch(input, firstId)
  {
    var rows: seq<Row> := [];
    var candidates := input.candidates;
    var resolvedPool := MapSeq(AsResolved, input.recentResolved);
    if input.carry.Some? {
      rows, candidates, resolvedPool := CarryStep(input.carry.value, candidates, resolvedPool, input.scanId, firstId);
    }
    p := Phase(rows, candidates, resolvedPool);
    assert p == AfterCarry(input, firstId);
    if input.matchBase.Some? {
      rows, candidates, resolvedPool :=
        MatchStep(input.matchBase.value, rows, candidates, resolvedPool, input.scanId, firstId);
      p := Phase(rows, candidates, resolvedPool);
    }
  }

  /** Statuses for one step of one scan; ids are handed out from firstId on. */
  method PlanStep(norm: string -> string, input: PlanInput, firstId: Id) returns (rows: seq<Row>, newFingerprints: seq<string>)
    ensures rows == Plan(norm, input, firstId)
    ensures newFingerprints == NewFingerprints(rows)
  {
    var p := FirstSteps(input, firstId);
    rows, newFingerprints := LastStep(norm, p, input.alreadyPersisted, input.scanId, firstId);
    FirstPhasesOnlyContinue(input, firstId);
    NewOnlyLast(p.rows, LastRows(norm, p, input.alreadyPersisted, input.scanId, firstId));
  }

  // ----- every row of a plan, section by section -----

  lemma {:induction false} NoneNew(rows: seq<Row>)
    requires forall k :: 0 <= k < |rows| ==> rows[k].status != New
    ensures Filter(rows, IsNew) == []
  {
    if rows != [] {
      NoneNew(rows[..|rows| - 1]);
    }
  }

  ghost predicate OnlyContinues(rows: seq<Row>) {
    forall k :: 0 <= k < |rows| ==> rows[k].status == Persisted || rows[k].status == Resolved
  }

  lemma CarryOnlyContinues(p: Phase, carry: CarryInput, scanId: ScanId, id: Id)
    requires OnlyContinues(p.rows)
    ensures OnlyContinues(CarryPhase(p, carry, scanId, id).rows)
  {
  }

  lemma MatchOnlyContinues(p: Phase, base: seq<Stored>, scanId: ScanId, id: Id)
    requires OnlyContinues(p.rows)
    ensures OnlyContinues(MatchPhase(p, base, scanId, id).rows)
  {
  }

  /** Before the last section a plan only continues or closes base findings. */
  lemma FirstPhasesOnlyContinue(input: PlanInput, id: Id)
    ensures OnlyContinues(AfterMatch(input, id).rows)
  {
    if input.carry.Some? {
      CarryOnlyContinues(StartPhase(input), input.carry.value, input.scanId, id);
    }
    if input.matchBase.Some? {
      MatchOnlyContinues(AfterCarry(input, id), input.matchBase.value, input.scanId, id);
    }
  }

  lemma NewOnlyLast(rows: seq<Row>, last: seq<Row>)
    requires OnlyContinues(rows)
    ensures NewFingerprints(rows + last) == NewFingerprints(last)
  {
    NoneNew(rows);
    FilterConcat(rows, last, IsNew);
  }
}
