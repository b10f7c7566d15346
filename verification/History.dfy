/** Histories of committed static scans of one pull request: the lifecycle step of
    src/queue/scan.processor.ts with the queries of src/queue/lifecycle/lifecycle-context.ts. */
module History {
  import opened Seqs
  import opened Findings
  import opened CarryForward
  import opened StatusMatcher
  import opened PlanFindings
  import opened PlanProperties
  import opened PlanRows

  /** A finished scan with the rows its static step wrote. */
  datatype Scan = Scan(scanId: ScanId, rows: seq<Row>)

  datatype Mode = Full | Incremental

  const REOPEN_WINDOW_SCANS := 3
  const SYNTAX_RULE_ID := "code.syntax_error"

  /** What one static step works from. `loaded` and `recent` are what its two queries return, in
      whatever order the database chose; `enabled` is the quality profile, `decided` the old paths of
      the files whose syntax was checked, `baseAt` the position of the base scan. */
  datatype Step = Step(
    scanId: ScanId,
    mode: Mode,
    baseAt: Option<nat>,
    loaded: seq<Stored>,
    recent: seq<Stored>,
    enabled: Content -> bool,
    decided: set<string>,
    files: seq<CarryFile>,
    candidates: seq<Content>)

  function IsResolved(row: Row): bool {
    row.status == Resolved
  }

  function RowsOf(h: seq<Scan>): seq<Row> {
    if h == [] then [] else RowsOf(h[..|h| - 1]) + h[|h| - 1].rows
  }

  /** The last REOPEN_WINDOW_SCANS scans. */
  function Window(h: seq<Scan>): seq<Scan> {
    if |h| <= REOPEN_WINDOW_SCANS then h else h[|h| - REOPEN_WINDOW_SCANS..]
  }

  /** `loaded` holds the rows that pass `keep`, each once, in some order. */
  ghost predicate Loads(loaded: seq<Stored>, rows: seq<Row>, keep: Row -> bool) {
    SameElements(loaded, MapSeq(AsStored, Filter(rows, keep)))
  }

  ghost predicate StepOk(h: seq<Scan>, s: Step) {
    && (match s.baseAt
        case None => s.loaded == []
        case Some(b) => b < |h| && Loads(s.loaded, h[b].rows, IsLive))
    && Loads(s.recent, RowsOf(Window(h)), IsResolved)
    && (forall i :: 0 <= i < |h| ==> h[i].scanId != s.scanId)
    && Distinct(MapSeq(ContentFingerprint, s.candidates))
  }

  predicate IsEnabled(f: Stored, enabled: Content -> bool) {
    enabled(f.content)
  }

  predicate IsReevaluated(f: Stored, decided: set<string>) {
    f.content.source == Static && f.content.ruleId == SYNTAX_RULE_ID && f.content.filePath in decided
  }

  predicate IsStatic(f: Stored) {
    f.content.source == Static
  }

  function Enabled(s: Step): Stored -> bool {
    f => IsEnabled(f, s.enabled)
  }

  function Decided(s: Step): Stored -> bool {
    f => IsReevaluated(f, s.decided)
  }

  function Undecided(s: Step): Stored -> bool {
    f => !IsReevaluated(f, s.decided)
  }

  /** Base findings of the tiers that are on. */
  function Base(s: Step): seq<Stored> {
    Filter(s.loaded, Enabled(s))
  }

  function Reevaluated(s: Step): seq<Stored> {
    if s.mode == Incremental then Filter(Base(s), Decided(s)) else []
  }

  /** Incremental: all base findings go through the diff, but for syntax findings just decided, which
      are matched. Full with a base: the static ones are matched. */
  function InputOf(s: Step): PlanInput {
    PlanInput(
      s.scanId,
      s.candidates,
      if s.mode == Incremental
      then Some(CarryInput(Filter(Base(s), Undecided(s)), s.files))
      else None,
      if s.mode == Full && Base(s) != [] then Some(Filter(Base(s), IsStatic))
      else if Reevaluated(s) != [] then Some(Reevaluated(s))
      else None,
      None,
      s.recent)
  }

  ghost predicate IdsBelow(h: seq<Scan>, id: Id) {
    forall i, k :: 0 <= i < |h| && 0 <= k < |h[i].rows| ==> h[i].rows[k].id < id
  }

  ghost predicate Appends(norm: string -> string, h: seq<Scan>, h': seq<Scan>, s: Step, id: Id) {
    StepOk(h, s) && IdsBelow(h, id) && h' == h + [Scan(s.scanId, Plan(norm, InputOf(s), id))]
  }

  ghost predicate Extends(norm: string -> string, h: seq<Scan>, h': seq<Scan>) {
    exists s, id :: Appends(norm, h, h', s, id)
  }

  /** Every history is built from nothing, one static step after the other, each with fresh ids. */
  ghost predicate Reachable(norm: string -> string, h: seq<Scan>) {
    h == [] || (Reachable(norm, h[..|h| - 1]) && Extends(norm, h[..|h| - 1], h))
  }

  // ----- what the loaded findings are -----

  lemma LoadedIsRow(loaded: seq<Stored>, rows: seq<Row>, keep: Row -> bool, x: Stored) returns (k: nat)
    requires Loads(loaded, rows, keep) && x in loaded
    ensures k < |rows| && keep(rows[k]) && AsStored(rows[k]) == x
  {
    var all := MapSeq(AsStored, Filter(rows, keep));
    assert x in multiset(loaded);
    assert x in multiset(all);
    var j :| 0 <= j < |all| && all[j] == x;
    FilterMembers(rows, keep);
    assert Filter(rows, keep)[j] in Filter(rows, keep);
    k :| 0 <= k < |rows| && rows[k] == Filter(rows, keep)[j];
  }

  lemma {:induction false} RowOfHistory(h: seq<Scan>, k: nat) returns (i: nat, l: nat)
    requires k < |RowsOf(h)|
    ensures i < |h| && l < |h[i].rows| && h[i].rows[l] == RowsOf(h)[k]
  {
    var n := |h| - 1;
    if k < |RowsOf(h[..n])| {
      i, l := RowOfHistory(h[..n], k);
    } else {
      i, l := n, k - |RowsOf(h[..n])|;
    }
  }

  lemma BaseIsLoaded(s: Step)
    ensures forall b :: b in BaseOf(InputOf(s)) ==> b in s.loaded
  {
    FilterMembers(s.loaded, Enabled(s));
    FilterMembers(Base(s), Undecided(s));
    FilterMembers(Base(s), Decided(s));
    FilterMembers(Base(s), IsStatic);
  }

  // ----- provenance -----

  /** Row (j, l) is what row (i, k) points at: the earlier scan, or a RESOLVED row of the same scan
      for a REOPENED one; both were first seen in the same scan. */
  ghost predicate PointsAt(h: seq<Scan>, i: nat, k: nat, j: nat, l: nat)
    requires i < |h| && k < |h[i].rows|
  {
    && j < |h| && l < |h[j].rows|
    && h[i].rows[k].origin == Some(h[j].rows[l].id)
    && h[i].rows[k].firstSeen == h[j].rows[l].firstSeen
    && (j < i || (j == i && h[i].rows[k].status == Reopened && h[j].rows[l].status == Resolved))
  }

  ghost predicate HasOrigin(h: seq<Scan>, i: nat, k: nat)
    requires i < |h| && k < |h[i].rows|
  {
    exists j, l :: PointsAt(h, i, k, j, l)
  }

  ghost predicate RowProvenance(h: seq<Scan>, i: nat, k: nat)
    requires i < |h| && k < |h[i].rows|
  {
    var row := h[i].rows[k];
    if row.status == New then row.origin.None? && row.firstSeen == h[i].scanId
    else HasOrigin(h, i, k)
  }

  ghost predicate Provenance(h: seq<Scan>) {
    forall i, k :: 0 <= i < |h| && 0 <= k < |h[i].rows| ==> RowProvenance(h, i, k)
  }

  /** Row ids grow along the history, so an id names one row. */
  ghost predicate IdsGrow(h: seq<Scan>) {
    forall i, k, j, l ::
      (0 <= i < |h| && 0 <= k < |h[i].rows| && 0 <= j < |h| && 0 <= l < |h[j].rows| && Before(i, k, j, l)) ==>
        h[i].rows[k].id < h[j].rows[l].id
  }

  predicate Before(i: nat, k: nat, j: nat, l: nat) {
    i < j || (i == j && k < l)
  }

  lemma OriginAmongRows(row: Row, loaded: seq<Stored>, rows: seq<Row>, keep: Row -> bool)
    returns (k: nat)
    requires Loads(loaded, rows, keep) && ContinuesOneOf(row, loaded)
    ensures k < |rows| && keep(rows[k]) && row.origin == Some(rows[k].id) && row.firstSeen == rows[k].firstSeen
  {
    var b :| b in loaded && row.origin == Some(b.id) && row.firstSeen == b.firstSeen;
    k := LoadedIsRow(loaded, rows, keep, b);
  }

  lemma WindowIsHistory(h: seq<Scan>, i: nat) returns (j: nat)
    requires i < |Window(h)|
    ensures j < |h| && h[j] == Window(h)[i]
  {
    j := if |h| <= REOPEN_WINDOW_SCANS then i else |h| - REOPEN_WINDOW_SCANS + i;
  }

  /** A row of the new scan: NEW and first seen here, or pointing at an earlier row. */
  lemma NewScanProvenance(norm: string -> string, h: seq<Scan>, h': seq<Scan>, s: Step, id: Id, k: nat)
    requires Appends(norm, h, h', s, id) && k < |h'[|h|].rows|
    ensures RowProvenance(h', |h|, k)
  {
    var row := h'[|h|].rows[k];
    PlanRowOk(norm, InputOf(s), id, k);
    if row.status == Persisted || row.status == Resolved {
      ContinuedProvenance(norm, h, h', s, id, k);
    } else if row.status == Reopened {
      ReopenedProvenance(norm, h, h', s, id, k);
    }
  }

  lemma ContinuedProvenance(norm: string -> string, h: seq<Scan>, h': seq<Scan>, s: Step, id: Id, k: nat)
    requires Appends(norm, h, h', s, id) && k < |h'[|h|].rows|
    requires ContinuesOneOf(h'[|h|].rows[k], BaseOf(InputOf(s)))
    ensures HasOrigin(h', |h|, k)
  {
    var row := h'[|h|].rows[k];
    BaseIsLoaded(s);
    Widen([row], BaseOf(InputOf(s)), s.loaded);
    assert ContinuesOneOf([row][0], s.loaded);
    var l := OriginAmongRows(row, s.loaded, h[s.baseAt.value].rows, IsLive);
    assert PointsAt(h', |h|, k, s.baseAt.value, l);
  }

  lemma ReopenedProvenance(norm: string -> string, h: seq<Scan>, h': seq<Scan>, s: Step, id: Id, k: nat)
    requires Appends(norm, h, h', s, id) && k < |h'[|h|].rows|
    requires h'[|h|].rows[k].status == Reopened
    requires ContinuesOneOf(h'[|h|].rows[k], s.recent) || ReopensOneOf(h'[|h|].rows[k], h'[|h|].rows)
    ensures HasOrigin(h', |h|, k)
  {
    var n := |h|;
    var row := h'[n].rows[k];
    assert Loads(s.recent, RowsOf(Window(h)), IsResolved);
    hide StepOk, InputOf, Plan, Loads, RowsOf;
    if ContinuesOneOf(row, s.recent) {
      var at := OriginAmongRows(row, s.recent, RowsOf(Window(h)), IsResolved);
      var i, l := RowOfHistory(Window(h), at);
      var j := WindowIsHistory(h, i);
      assert PointsAt(h', n, k, j, l);
    } else {
      var l :| 0 <= l < |h'[n].rows| && h'[n].rows[l].status == Resolved
               && row.origin == Some(h'[n].rows[l].id) && row.firstSeen == h'[n].rows[l].firstSeen;
      assert PointsAt(h', n, k, n, l);
    }
  }

  lemma OldScansProvenance(h: seq<Scan>, last: Scan)
    requires Provenance(h)
    ensures forall i, k :: 0 <= i < |h| && 0 <= k < |h[i].rows| ==> RowProvenance(h + [last], i, k)
  {
    forall i, k | 0 <= i < |h| && 0 <= k < |h[i].rows|
      ensures RowProvenance(h + [last], i, k)
    {
      assert RowProvenance(h, i, k);
      if h[i].rows[k].status != New {
        var j, l :| PointsAt(h, i, k, j, l);
        assert PointsAt(h + [last], i, k, j, l);
      }
    }
  }

  lemma IdsKeepGrowing(h: seq<Scan>, last: Scan, id: Id)
    requires IdsGrow(h) && IdsBelow(h, id) && IdsFrom(last.rows, id)
    ensures IdsGrow(h + [last])
  {
  }

  lemma AllProvenance(h: seq<Scan>, last: Scan)
    requires Provenance(h)
    requires forall k :: 0 <= k < |last.rows| ==> RowProvenance(h + [last], |h|, k)
    ensures Provenance(h + [last])
  {
    OldScansProvenance(h, last);
  }

  lemma NewScansProvenance(norm: string -> string, h: seq<Scan>, h': seq<Scan>, s: Step, id: Id, last: Scan)
    requires Appends(norm, h, h', s, id) && last == h'[|h|]
    ensures forall k :: 0 <= k < |last.rows| ==> RowProvenance(h', |h|, k)
  {
    forall k | 0 <= k < |last.rows|
      ensures RowProvenance(h', |h|, k)
    {
      NewScanProvenance(norm, h, h', s, id, k);
    }
  }

  lemma {:induction false} ReachableProvenance(norm: string -> string, h: seq<Scan>)
    requires Reachable(norm, h)
    ensures Provenance(h) && IdsGrow(h)
    decreases |h|
  {
    if h != [] {
      var before := h[..|h| - 1];
      assert Extends(norm, before, h);
      var s, id :| Appends(norm, before, h, s, id);
      ReachableProvenance(norm, before);
      NewScansProvenance(norm, before, h, s, id, h[|h| - 1]);
      AllProvenance(before, h[|h| - 1]);
      PlanIds(norm, InputOf(s), id);
      IdsKeepGrowing(before, h[|h| - 1], id);
    }
  }

  /** Scan order first, then RESOLVED before REOPENED. */
  function Rank(h: seq<Scan>, i: nat, k: nat): nat
    requires i < |h| && k < |h[i].rows|
  {
    2 * i + if h[i].rows[k].status == Reopened then 1 else 0
  }

  /** Whatever row carries the id a row points at, the pointing goes down and keeps `firstSeen`. */
  lemma OriginGoesDown(h: seq<Scan>, i: nat, k: nat, j: nat, l: nat)
    requires Provenance(h) && IdsGrow(h)
    requires i < |h| && k < |h[i].rows| && j < |h| && l < |h[j].rows|
    requires h[i].rows[k].origin == Some(h[j].rows[l].id)
    ensures Rank(h, j, l) < Rank(h, i, k)
    ensures h[i].rows[k].firstSeen == h[j].rows[l].firstSeen
  {
    assert RowProvenance(h, i, k);
    var j', l' :| PointsAt(h, i, k, j', l');
    assert j' == j && l' == l;
  }

  /** `path` follows origins from row (i, k). */
  ghost predicate Follows(h: seq<Scan>, path: seq<(nat, nat)>, i: nat, k: nat) {
    && |path| > 0 && path[0] == (i, k)
    && (forall t :: 0 <= t < |path| ==> path[t].0 < |h| && path[t].1 < |h[path[t].0].rows|)
    && (forall t :: 0 <= t < |path| - 1 ==>
          h[path[t].0].rows[path[t].1].origin == Some(h[path[t + 1].0].rows[path[t + 1].1].id))
  }

  /** The path ends at a NEW row, and its rows were first seen in that row's scan. */
  ghost predicate EndsAtNew(h: seq<Scan>, path: seq<(nat, nat)>, i: nat, k: nat) {
    && Follows(h, path, i, k)
    && var root := path[|path| - 1];
       && h[root.0].rows[root.1].status == New
       && h[root.0].rows[root.1].origin.None?
       && forall t :: 0 <= t < |path| ==> h[path[t].0].rows[path[t].1].firstSeen == h[root.0].scanId
  }

  lemma {:induction false} FollowToNew(h: seq<Scan>, i: nat, k: nat) returns (path: seq<(nat, nat)>)
    requires Provenance(h) && i < |h| && k < |h[i].rows|
    ensures EndsAtNew(h, path, i, k)
    decreases Rank(h, i, k)
  {
    assert RowProvenance(h, i, k);
    if h[i].rows[k].status == New {
      path := [(i, k)];
    } else {
      var j, l :| PointsAt(h, i, k, j, l);
      var rest := FollowToNew(h, j, l);
      path := [(i, k)] + rest;
      assert path[|path| - 1] == rest[|rest| - 1];
    }
  }

  /** Following origins from any row of any history ends at a NEW row, first seen in the scan every
      row on the way claims. */
  lemma ChainEndsAtNew(norm: string -> string, h: seq<Scan>, i: nat, k: nat)
    requires Reachable(norm, h) && i < |h| && k < |h[i].rows|
    ensures exists path :: EndsAtNew(h, path, i, k)
  {
    ReachableProvenance(norm, h);
    var path := FollowToNew(h, i, k);
  }

  /** No chain of origins is longer than the rank of its first row allows. */
  lemma {:induction false} ChainsAreShort(norm: string -> string, h: seq<Scan>, path: seq<(nat, nat)>, i: nat, k: nat)
    requires Reachable(norm, h) && i < |h| && k < |h[i].rows| && Follows(h, path, i, k)
    ensures |path| <= Rank(h, i, k) + 1
    decreases |path|
  {
    ReachableProvenance(norm, h);
    if |path| > 1 {
      FollowsOn(h, path, i, k);
      hide *;
      var (j, l) := path[1];
      OriginGoesDown(h, i, k, j, l);
      ChainsAreShort(norm, h, path[1..], j, l);
    }
  }

  lemma FollowsOn(h: seq<Scan>, path: seq<(nat, nat)>, i: nat, k: nat)
    requires i < |h| && k < |h[i].rows| && Follows(h, path, i, k) && |path| > 1
    ensures var (j, l) := path[1];
            && j < |h| && l < |h[j].rows| && h[i].rows[k].origin == Some(h[j].rows[l].id)
            && Follows(h, path[1..], j, l)
  {
    assert path[1..][0] == path[1];
  }

  // ----- no double counting -----

  ghost predicate NoDoubles(h: seq<Scan>) {
    forall i :: 0 <= i < |h| ==> Distinct(LiveFingerprints(h[i].rows))
  }

  lemma StoredFps(rows: seq<Row>)
    ensures MapSeq(StoredFingerprint, MapSeq(AsStored, rows)) == MapSeq(RowFingerprint, rows)
  {
  }

  lemma LoadedDistinct(loaded: seq<Stored>, rows: seq<Row>)
    requires Loads(loaded, rows, IsLive) && Distinct(LiveFingerprints(rows))
    ensures Distinct(MapSeq(StoredFingerprint, loaded))
  {
    MapSameElements(StoredFingerprint, loaded, MapSeq(AsStored, Filter(rows, IsLive)));
    StoredFps(Filter(rows, IsLive));
  }

  lemma CarriedBaseDistinct(s: Step)
    requires Distinct(MapSeq(StoredFingerprint, s.loaded))
    ensures Distinct(MapSeq(StoredFingerprint, CarryBase(InputOf(s))))
  {
    FilterDistinct(StoredFingerprint, s.loaded, Enabled(s), (f: Stored) => !IsEnabled(f, s.enabled));
    FilterDistinct(StoredFingerprint, Base(s), Undecided(s), Decided(s));
  }

  /** In every reachable history the live rows of each scan have pairwise distinct fingerprints. */
  lemma {:induction false} NeverCountsTwice(norm: string -> string, h: seq<Scan>)
    requires Reachable(norm, h)
    ensures NoDoubles(h)
    decreases |h|
  {
    if h != [] {
      var before := h[..|h| - 1];
      assert Extends(norm, before, h);
      var s, id :| Appends(norm, before, h, s, id);
      hide *;
      NeverCountsTwice(norm, before);
      NextHasNoDoubles(norm, before, h, s, id);
    }
  }

  lemma NextHasNoDoubles(norm: string -> string, before: seq<Scan>, h: seq<Scan>, s: Step, id: Id)
    requires Appends(norm, before, h, s, id) && NoDoubles(before)
    ensures NoDoubles(h)
  {
    if s.baseAt.Some? {
      LoadedDistinct(s.loaded, before[s.baseAt.value].rows);
    }
    CarriedBaseDistinct(s);
    assert InputOf(s).candidates == s.candidates;
    assert h[|before|].rows == Plan(norm, InputOf(s), id);
    hide Plan, InputOf, CarryBase, StepOk, LiveFingerprints, Loads, Distinct;
    PlanLiveDistinct(norm, InputOf(s), id);
  }
}
