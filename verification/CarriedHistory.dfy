/** Rows of the scans of a pull request against the files of their commits: the incremental steps of
    src/queue/scan.processor.ts, composed with src/queue/lifecycle/carry-forward.ts. */
module CarriedHistory {
  import opened Seqs
  import opened Findings
  import opened CarryForward
  import opened StatusMatcher
  import opened PlanFindings
  import opened PlanProperties
  import opened PlanRows
  import opened History

  // ----- the rows of one plan -----

  function AtPlace(c: Content, p: Place): Content {
    c.(filePath := p.filePath, lineStart := p.lineStart, lineEnd := p.lineEnd)
  }

  /** The row carrying makes of the base finding b. */
  ghost predicate IsCarriedRow(row: Row, b: Stored, files: seq<CarryFile>) {
    var at := CarryPlace(PlaceOf(b), Claims(files));
    && row.origin == Some(b.id) && row.firstSeen == b.firstSeen
    && row.status == (if at.Some? then Persisted else Resolved)
    && row.content == AtPlace(b.content, if at.Some? then at.value else PlaceOf(b))
  }

  ghost predicate CarriesOneOf(row: Row, carry: CarryInput) {
    exists b :: b in carry.base && IsCarriedRow(row, b, carry.files)
  }

  ghost predicate AllCarryOneOf(rows: seq<Row>, carry: CarryInput) {
    forall k :: 0 <= k < |rows| ==> CarriesOneOf(rows[k], carry)
  }

  lemma {:induction false} KeptAt<T>(findings: seq<T>, placeOf: T -> Place, carry: Place -> Option<Place>, k: nat)
    requires k < |PersistedOf(findings, placeOf, carry)|
    ensures var c := PersistedOf(findings, placeOf, carry)[k];
            c.finding in findings && carry(placeOf(c.finding)) == Some(c.place)
  {
    var front := findings[..|findings| - 1];
    if k < |PersistedOf(front, placeOf, carry)| {
      KeptAt(front, placeOf, carry, k);
    }
  }

  lemma KeptAreCarried(carry: CarryInput, scanId: ScanId, id: Id)
    ensures AllCarryOneOf(CarriedRows(Kept(carry), scanId, id), carry)
  {
    forall k | 0 <= k < |Kept(carry)|
      ensures CarriesOneOf(CarriedRows(Kept(carry), scanId, id)[k], carry)
    {
      KeptAt(carry.base, PlaceOf, CarryWith(Claims(carry.files)), k);
      assert IsCarriedRow(CarriedRows(Kept(carry), scanId, id)[k], Kept(carry)[k].finding, carry.files);
    }
  }

  lemma ClosedAreNotCarried(carry: CarryInput, scanId: ScanId, id: Id)
    ensures AllCarryOneOf(ResolvedRows(Closed(carry), scanId, id), carry)
  {
    FilterMembers(carry.base, Closing(PlaceOf, CarryWith(Claims(carry.files))));
    forall k | 0 <= k < |Closed(carry)|
      ensures CarriesOneOf(ResolvedRows(Closed(carry), scanId, id)[k], carry)
    {
      var b := Closed(carry)[k];
      assert b in Closed(carry);
      assert b.content == AtPlace(b.content, PlaceOf(b));
      assert IsCarriedRow(ResolvedRows(Closed(carry), scanId, id)[k], b, carry.files);
    }
  }

  /** A row continues a base finding through the diff, or continues one by its fingerprint. */
  ghost predicate Comes(row: Row, input: PlanInput) {
    || (input.carry.Some? && CarriesOneOf(row, input.carry.value))
    || ContinuesOneOf(row, MatchBase(input))
  }

  lemma CarriedSectionComes(input: PlanInput, id: Id)
    ensures forall k :: 0 <= k < |AfterCarry(input, id).rows| ==> Comes(AfterCarry(input, id).rows[k], input)
  {
    if input.carry.Some? {
      var carry := input.carry.value;
      KeptAreCarried(carry, input.scanId, id);
      ClosedAreNotCarried(carry, input.scanId, id + |Kept(carry)|);
    }
  }

  lemma FirstSectionsCome(input: PlanInput, id: Id)
    ensures forall k :: 0 <= k < |AfterMatch(input, id).rows| ==> Comes(AfterMatch(input, id).rows[k], input)
  {
    CarriedSectionComes(input, id);
    if input.matchBase.Some? {
      var p, base := AfterCarry(input, id), input.matchBase.value;
      var paired := PairRows(Pairs(p.candidates, base, |p.candidates|), input.scanId, id + |p.rows|);
      PairsContinue(p.candidates, base, input.scanId, id + |p.rows|);
      UnmatchedAreBase(p.candidates, base);
      ClosedContinue(Unmatched(p.candidates, base), input.scanId, id + |p.rows| + |paired|, base);
    }
  }

  lemma LastSectionIsWritten(norm: string -> string, p: Phase, already: Option<seq<string>>, scanId: ScanId, id: Id)
    ensures forall k :: 0 <= k < |LastRows(norm, p, already, scanId, id)| ==>
              !Continues(LastRows(norm, p, already, scanId, id)[k])
  {
  }

  /** Each PERSISTED or RESOLVED row of a plan is a base finding carried through the diff or matched. */
  lemma ContinuingRowComes(norm: string -> string, input: PlanInput, id: Id, k: nat)
    requires k < |Plan(norm, input, id)| && Continues(Plan(norm, input, id)[k])
    ensures Comes(Plan(norm, input, id)[k], input)
  {
    var p := AfterMatch(input, id);
    FirstSectionsCome(input, id);
    LastSectionIsWritten(norm, p, input.alreadyPersisted, input.scanId, id);
    hide AfterMatch, LastRows, Comes, Continues;
  }

  // ----- the step that made each scan -----

  /** Scan k was made from the scans before it by step k, with ids from ids[k] on. */
  ghost predicate IsMadeBy(norm: string -> string, h: seq<Scan>, steps: seq<Step>, ids: seq<Id>) {
    && |steps| == |h| && |ids| == |h|
    && forall k :: 0 <= k < |h| ==> Appends(norm, h[..k], h[..k + 1], steps[k], ids[k])
  }

  lemma {:induction false} ReachableIsMade(norm: string -> string, h: seq<Scan>) returns (steps: seq<Step>, ids: seq<Id>)
    requires Reachable(norm, h)
    ensures IsMadeBy(norm, h, steps, ids)
    decreases |h|
  {
    steps, ids := [], [];
    if h != [] {
      var before := h[..|h| - 1];
      assert Extends(norm, before, h);
      var s, id :| Appends(norm, before, h, s, id);
      hide Appends, Extends, Reachable;
      var steps', ids' := ReachableIsMade(norm, before);
      steps, ids := steps' + [s], ids' + [id];
      MadeByOneMore(norm, h, steps', ids', s, id);
    }
  }

  lemma MadeByOneMore(norm: string -> string, h: seq<Scan>, steps: seq<Step>, ids: seq<Id>, s: Step, id: Id)
    requires h != [] && IsMadeBy(norm, h[..|h| - 1], steps, ids) && Appends(norm, h[..|h| - 1], h, s, id)
    ensures IsMadeBy(norm, h, steps + [s], ids + [id])
  {
    hide Appends;
    var n := |h| - 1;
    assert h[..n + 1] == h;
    forall k | 0 <= k <= n
      ensures h[..n][..k] == h[..k]
    {
    }
  }

  lemma {:induction false} MadeIsReachable(norm: string -> string, h: seq<Scan>, steps: seq<Step>, ids: seq<Id>)
    requires IsMadeBy(norm, h, steps, ids)
    ensures Reachable(norm, h)
    decreases |h|
  {
    if h != [] {
      var n := |h| - 1;
      hide Appends;
      MadeByOneLess(norm, h, steps, ids);
      MadeIsReachable(norm, h[..n], steps[..n], ids[..n]);
      assert Extends(norm, h[..n], h);
    }
  }

  lemma MadeByOneLess(norm: string -> string, h: seq<Scan>, steps: seq<Step>, ids: seq<Id>)
    requires h != [] && IsMadeBy(norm, h, steps, ids)
    ensures var n := |h| - 1;
            IsMadeBy(norm, h[..n], steps[..n], ids[..n]) && Appends(norm, h[..n], h, steps[n], ids[n])
  {
    hide Appends;
    var n := |h| - 1;
    assert h[..n + 1] == h;
    forall k | 0 <= k <= n
      ensures h[..n][..k] == h[..k]
    {
    }
  }

  lemma MadeIdsGrow(norm: string -> string, h: seq<Scan>, steps: seq<Step>, ids: seq<Id>)
    requires IsMadeBy(norm, h, steps, ids)
    ensures IdsGrow(h)
  {
    hide *;
    MadeIsReachable(norm, h, steps, ids);
    ReachableProvenance(norm, h);
  }

  /** An incremental step compares the commit of its base scan with that of the new one. */
  ghost predicate OnCommits(steps: seq<Step>, trees: seq<Tree>) {
    && |trees| == |steps|
    && forall k, b :: 0 <= b < k < |steps| && steps[k].mode == Incremental && steps[k].baseAt == Some(b) ==>
         IsPush(trees[b], steps[k].files, trees[k])
  }

  predicate InScan(h: seq<Scan>, at: (nat, nat)) {
    at.0 < |h| && at.1 < |h[at.0].rows|
  }

  function RowAt(h: seq<Scan>, at: (nat, nat)): Row
    requires InScan(h, at)
  {
    h[at.0].rows[at.1]
  }

  function PlaceAt(h: seq<Scan>, at: (nat, nat)): Place
    requires InScan(h, at)
  {
    PlaceOf(AsStored(RowAt(h, at)))
  }

  /** The step carries the row through its diff: incremental, based on the row's scan, and the row is
      live, of a tier that is on, and no syntax finding that is decided again. */
  predicate TakesOver(s: Step, h: seq<Scan>, at: (nat, nat))
    requires InScan(h, at)
  {
    && s.mode == Incremental && s.baseAt == Some(at.0)
    && IsLive(RowAt(h, at))
    && IsEnabled(AsStored(RowAt(h, at)), s.enabled)
    && !IsReevaluated(AsStored(RowAt(h, at)), s.decided)
  }

  /** The row at `next` continues the row at `at`. */
  predicate Names(h: seq<Scan>, next: (nat, nat), at: (nat, nat))
    requires InScan(h, next) && InScan(h, at)
  {
    Continues(RowAt(h, next)) && RowAt(h, next).origin == Some(RowAt(h, at).id)
  }

  lemma MadeAt(norm: string -> string, h: seq<Scan>, steps: seq<Step>, ids: seq<Id>, j: nat)
    requires IsMadeBy(norm, h, steps, ids) && j < |h|
    ensures h[j].rows == Plan(norm, InputOf(steps[j]), ids[j]) && StepOk(h[..j], steps[j])
  {
    hide StepOk, InputOf, Plan;
    assert Appends(norm, h[..j], h[..j + 1], steps[j], ids[j]);
    assert h[..j + 1][j] == h[j];
  }

  /** In the loaded base a row is known by its id. */
  lemma LoadedById(h: seq<Scan>, j: nat, s: Step, at: (nat, nat), b: Stored)
    requires IdsGrow(h) && j <= |h| && StepOk(h[..j], s) && InScan(h, at) && s.baseAt == Some(at.0)
    requires b in s.loaded && b.id == RowAt(h, at).id
    ensures b == AsStored(RowAt(h, at))
  {
    assert h[..j][at.0] == h[at.0];
    var k := LoadedIsRow(s.loaded, h[at.0].rows, IsLive, b);
    assert h[at.0].rows[k].id == RowAt(h, at).id;
    assert k == at.1;
  }

  lemma CarriedAreUndecided(s: Step, b: Stored)
    requires s.mode == Incremental
    ensures b in CarryBase(InputOf(s)) <==> b in s.loaded && IsEnabled(b, s.enabled) && !IsReevaluated(b, s.decided)
    ensures b in MatchBase(InputOf(s)) ==> b in s.loaded && IsReevaluated(b, s.decided)
  {
    FilterMembers(s.loaded, Enabled(s));
    FilterMembers(Base(s), Undecided(s));
    FilterMembers(Base(s), Decided(s));
  }

  /** A row that continues one its step takes over is that row, carried. */
  lemma ContinuedIsCarried(
    norm: string -> string, h: seq<Scan>, steps: seq<Step>, ids: seq<Id>, at: (nat, nat), next: (nat, nat))
    requires IsMadeBy(norm, h, steps, ids) && IdsGrow(h)
    requires InScan(h, at) && InScan(h, next) && TakesOver(steps[next.0], h, at) && Names(h, next, at)
    ensures IsCarriedRow(RowAt(h, next), AsStored(RowAt(h, at)), steps[next.0].files)
  {
    var s, row := steps[next.0], RowAt(h, next);
    var input := InputOf(s);
    MadeAt(norm, h, steps, ids, next.0);
    ContinuingRowComes(norm, input, ids[next.0], next.1);
    hide Plan, StepOk, IsMadeBy, IdsGrow, IsCarriedRow;
    if ContinuesOneOf(row, MatchBase(input)) {
      var b :| b in MatchBase(input) && row.origin == Some(b.id);
      CarriedAreUndecided(s, b);
      LoadedById(h, next.0, s, at, b);
    } else {
      var b :| b in input.carry.value.base && IsCarriedRow(row, b, s.files);
      CarriedAreUndecided(s, b);
      assert row.origin == Some(b.id) by { CarriedNames(row, b, s.files); }
      LoadedById(h, next.0, s, at, b);
    }
  }

  lemma CarriedNames(row: Row, b: Stored, files: seq<CarryFile>)
    requires IsCarriedRow(row, b, files)
    ensures row.origin == Some(b.id)
  {
  }

  // ----- any number of incremental scans -----

  /** `path` goes from row to row, each carried to the next by an incremental step. */
  ghost predicate IsCarriedPath(h: seq<Scan>, steps: seq<Step>, path: seq<(nat, nat)>) {
    && path != [] && |steps| == |h|
    && (forall t :: 0 <= t < |path| ==> InScan(h, path[t]))
    && (forall t :: 0 < t < |path| ==>
          && TakesOver(steps[path[t].0], h, path[t - 1])
          && Names(h, path[t], path[t - 1])
          && RowAt(h, path[t]).status == Persisted)
  }

  function FilesAlong(h: seq<Scan>, steps: seq<Step>, path: seq<(nat, nat)>): (r: seq<seq<CarryFile>>)
    requires IsCarriedPath(h, steps, path)
    ensures |r| == |path| - 1 && forall t :: 0 <= t < |r| ==> r[t] == steps[path[t + 1].0].files
  {
    seq(|path| - 1, t requires 0 <= t < |path| - 1 => steps[path[t + 1].0].files)
  }

  function TreesAlong(h: seq<Scan>, steps: seq<Step>, trees: seq<Tree>, path: seq<(nat, nat)>): (r: seq<Tree>)
    requires IsCarriedPath(h, steps, path) && |trees| == |steps|
    ensures |r| == |path| && forall t :: 0 <= t < |r| ==> r[t] == trees[path[t].0]
  {
    seq(|path|, t requires 0 <= t < |path| => trees[path[t].0])
  }

  /** On the way no push takes over the path of the row's finding, nor hides a change to its lines. */
  ghost predicate IsSafePath(h: seq<Scan>, steps: seq<Step>, trees: seq<Tree>, path: seq<(nat, nat)>)
    requires IsCarriedPath(h, steps, path) && |trees| == |steps|
  {
    forall t :: 0 < t < |path| && InTree(trees[path[t - 1].0], PlaceAt(h, path[t - 1])) ==>
      IsSafe(trees[path[t - 1].0], steps[path[t].0].files, trees[path[t].0], PlaceAt(h, path[t - 1]))
  }

  lemma BaseIsEarlier(
    norm: string -> string, h: seq<Scan>, steps: seq<Step>, ids: seq<Id>, at: (nat, nat), j: nat)
    requires IsMadeBy(norm, h, steps, ids) && j < |h| && InScan(h, at) && TakesOver(steps[j], h, at)
    ensures at.0 < j
  {
    MadeAt(norm, h, steps, ids, j);
  }

  lemma PathIsHistory(
    norm: string -> string, h: seq<Scan>, steps: seq<Step>, ids: seq<Id>, trees: seq<Tree>, path: seq<(nat, nat)>)
    requires IsMadeBy(norm, h, steps, ids) && OnCommits(steps, trees) && IsCarriedPath(h, steps, path)
    ensures IsHistory(TreesAlong(h, steps, trees, path), FilesAlong(h, steps, path))
  {
    hide IsMadeBy, IsPush;
    forall t | 0 <= t < |path| - 1
      ensures IsPush(trees[path[t].0], steps[path[t + 1].0].files, trees[path[t + 1].0])
    {
      BaseIsEarlier(norm, h, steps, ids, path[t], path[t + 1].0);
    }
  }

  /** One step: carrying puts the place where the next row has it, and changes nothing else. */
  lemma NextPlace(
    norm: string -> string, h: seq<Scan>, steps: seq<Step>, ids: seq<Id>, at: (nat, nat), next: (nat, nat))
    requires IsMadeBy(norm, h, steps, ids) && IdsGrow(h)
    requires InScan(h, at) && InScan(h, next) && TakesOver(steps[next.0], h, at) && Names(h, next, at)
    requires RowAt(h, next).status == Persisted
    ensures CarryPlace(PlaceAt(h, at), Claims(steps[next.0].files)) == Some(PlaceAt(h, next))
    ensures RowAt(h, next).content == AtPlace(RowAt(h, at).content, PlaceAt(h, next))
  {
    ContinuedIsCarried(norm, h, steps, ids, at, next);
    hide CarryPlace, Claims, IsMadeBy, IdsGrow, TakesOver;
  }

  lemma {:induction false} RunAlong(
    norm: string -> string, h: seq<Scan>, steps: seq<Step>, ids: seq<Id>, path: seq<(nat, nat)>, n: nat)
    requires IsMadeBy(norm, h, steps, ids) && IdsGrow(h) && IsCarriedPath(h, steps, path) && n < |path|
    ensures Run(PlaceAt(h, path[0]), Carries(FilesAlong(h, steps, path))[..n]) == Some(PlaceAt(h, path[n]))
    ensures RowAt(h, path[n]).content == AtPlace(RowAt(h, path[0]).content, PlaceAt(h, path[n]))
    decreases n
  {
    hide IsMadeBy, IdsGrow, CarryPlace, Claims;
    if n > 0 {
      RunAlong(norm, h, steps, ids, path, n - 1);
      NextPlace(norm, h, steps, ids, path[n - 1], path[n]);
      RunOn(Carries(FilesAlong(h, steps, path)), PlaceAt(h, path[0]), n - 1);
    }
  }

  lemma SafePathIsSafe(
    norm: string -> string, h: seq<Scan>, steps: seq<Step>, ids: seq<Id>, trees: seq<Tree>, path: seq<(nat, nat)>)
    requires IsMadeBy(norm, h, steps, ids) && IdsGrow(h) && OnCommits(steps, trees) && IsCarriedPath(h, steps, path)
    requires IsSafePath(h, steps, trees, path)
    requires IsHistory(TreesAlong(h, steps, trees, path), FilesAlong(h, steps, path))
    ensures SafeAlong(TreesAlong(h, steps, trees, path), FilesAlong(h, steps, path), PlaceAt(h, path[0]))
  {
    var files := FilesAlong(h, steps, path);
    assert forall t :: 0 <= t < |path| ==> path[t].0 < |trees|;
    hide IsMadeBy, IdsGrow, OnCommits, IsHistory, IsSafe, InTree, Run;
    forall k, q | 0 <= k < |files| && Run(PlaceAt(h, path[0]), Carries(files)[..k]) == Some(q) && InTree(trees[path[k].0], q)
      ensures IsSafe(trees[path[k].0], files[k], trees[path[k + 1].0], q)
    {
      RunAlong(norm, h, steps, ids, path, k);
    }
  }

  lemma EndsWhereItLeads(trees: seq<Tree>, pushes: seq<seq<CarryFile>>, place: Place, place': Place)
    requires IsHistory(trees, pushes) && InTree(trees[0], place) && SafeAlong(trees, pushes, place)
    requires Run(place, Carries(pushes)[..|pushes|]) == Some(place')
    ensures Tracks(trees[0], place, trees[|pushes|], place') && PathAfter(pushes, place.filePath, place'.filePath)
  {
    hide IsPush, InTree, Tracks, SafeAlong, PathAfter, Run;
    ChainIsFaithful(trees, pushes, place);
    assert Carries(pushes)[..|pushes|] == Carries(pushes);
    assert pushes[..|pushes|] == pushes;
  }

  /** The lines a row covers were those of the first row of the path, unchanged and in order, in the file the
      first row's file became; what the row says is otherwise what the first row said. */
  ghost predicate Covers(h: seq<Scan>, steps: seq<Step>, trees: seq<Tree>, path: seq<(nat, nat)>)
    requires IsCarriedPath(h, steps, path) && |trees| == |steps|
  {
    var first, last := path[0], path[|path| - 1];
    && Tracks(trees[first.0], PlaceAt(h, first), trees[last.0], PlaceAt(h, last))
    && PathAfter(FilesAlong(h, steps, path), PlaceAt(h, first).filePath, PlaceAt(h, last).filePath)
    && RowAt(h, last).content == AtPlace(RowAt(h, first).content, PlaceAt(h, last))
  }

  /** A finding persisted over any number of incremental scans still covers the lines it was reported for. */
  lemma PersistedCovers(
    norm: string -> string, h: seq<Scan>, steps: seq<Step>, ids: seq<Id>, trees: seq<Tree>, path: seq<(nat, nat)>)
    requires IsMadeBy(norm, h, steps, ids) && OnCommits(steps, trees) && IsCarriedPath(h, steps, path)
    requires InTree(trees[path[0].0], PlaceAt(h, path[0])) && IsSafePath(h, steps, trees, path)
    ensures Covers(h, steps, trees, path)
  {
    MadeIdsGrow(norm, h, steps, ids);
    var files, n := FilesAlong(h, steps, path), |path| - 1;
    PathIsHistory(norm, h, steps, ids, trees, path);
    SafePathIsSafe(norm, h, steps, ids, trees, path);
    RunAlong(norm, h, steps, ids, path, n);
    var seen := TreesAlong(h, steps, trees, path);
    assert seen[0] == trees[path[0].0] && seen[n] == trees[path[n].0];
    hide IsMadeBy, IdsGrow, OnCommits, IsHistory, IsSafePath, SafeAlong, InTree, Run, Tracks, PathAfter, IsCarriedPath;
    EndsWhereItLeads(seen, files, PlaceAt(h, path[0]), PlaceAt(h, path[n]));
  }

  /** Distinct old paths and patches for all files that remain make every path safe. */
  lemma DistinctAndSeenPathIsSafe(
    norm: string -> string, h: seq<Scan>, steps: seq<Step>, ids: seq<Id>, trees: seq<Tree>, path: seq<(nat, nat)>)
    requires IsMadeBy(norm, h, steps, ids) && OnCommits(steps, trees) && IsCarriedPath(h, steps, path)
    requires forall k :: 0 <= k < |steps| ==> DistinctOldPaths(steps[k].files) && AllSeen(steps[k].files)
    ensures IsSafePath(h, steps, trees, path)
  {
    hide IsMadeBy, IsPush, DistinctOldPaths;
    forall t | 0 < t < |path| && InTree(trees[path[t - 1].0], PlaceAt(h, path[t - 1]))
      ensures IsSafe(trees[path[t - 1].0], steps[path[t].0].files, trees[path[t].0], PlaceAt(h, path[t - 1]))
    {
      BaseIsEarlier(norm, h, steps, ids, path[t - 1], path[t].0);
      DistinctMeansNoTakeover(trees[path[t - 1].0], steps[path[t].0].files, trees[path[t].0], PlaceAt(h, path[t - 1]).filePath);
    }
  }

  /** A row its step takes over is closed exactly when its file was removed or a line in its range deleted
      or replaced. */
  lemma ClosedExactlyWhenLost(
    norm: string -> string, h: seq<Scan>, steps: seq<Step>, ids: seq<Id>, trees: seq<Tree>, at: (nat, nat), next: (nat, nat))
    requires IsMadeBy(norm, h, steps, ids) && OnCommits(steps, trees)
    requires InScan(h, at) && InScan(h, next) && TakesOver(steps[next.0], h, at) && Names(h, next, at)
    requires InTree(trees[at.0], PlaceAt(h, at))
    requires IsSafe(trees[at.0], steps[next.0].files, trees[next.0], PlaceAt(h, at))
    ensures RowAt(h, next).status == Resolved <==> Lost(trees[at.0], steps[next.0].files, trees[next.0], PlaceAt(h, at))
  {
    MadeIdsGrow(norm, h, steps, ids);
    BaseIsEarlier(norm, h, steps, ids, at, next.0);
    ContinuedIsCarried(norm, h, steps, ids, at, next);
    hide IsMadeBy, IdsGrow, InTree, Lost, Tracks, MovesTo, CarryPlace, Claims;
    CarryIsFaithfulIff(trees[at.0], steps[next.0].files, trees[next.0], PlaceAt(h, at));
  }

  /** And some row of the scan continues it. */
  lemma IsContinued(
    norm: string -> string, h: seq<Scan>, steps: seq<Step>, ids: seq<Id>, at: (nat, nat), j: nat)
    returns (next: (nat, nat))
    requires IsMadeBy(norm, h, steps, ids) && InScan(h, at) && j < |h| && TakesOver(steps[j], h, at)
    ensures next.0 == j && InScan(h, next) && Names(h, next, at)
  {
    var s, b, rows := steps[j], AsStored(RowAt(h, at)), h[j].rows;
    MadeAt(norm, h, steps, ids, j);
    RowIsLoaded(h, j, s, at);
    CarriedAreUndecided(s, b);
    PlanConservesBase(norm, InputOf(s), ids[j]);
    var k := NamedByOne(rows, BaseOf(InputOf(s)), b);
    next := (j, k);
  }

  lemma RowIsLoaded(h: seq<Scan>, j: nat, s: Step, at: (nat, nat))
    requires j <= |h| && StepOk(h[..j], s) && InScan(h, at) && s.baseAt == Some(at.0) && IsLive(RowAt(h, at))
    ensures AsStored(RowAt(h, at)) in s.loaded
  {
    assert h[..j][at.0] == h[at.0];
    var live := Filter(h[at.0].rows, IsLive);
    FilterMembers(h[at.0].rows, IsLive);
    var k :| 0 <= k < |live| && live[k] == RowAt(h, at);
    assert MapSeq(AsStored, live)[k] == AsStored(RowAt(h, at));
    assert AsStored(RowAt(h, at)) in multiset(MapSeq(AsStored, live));
    assert AsStored(RowAt(h, at)) in multiset(s.loaded);
  }

  lemma NamedByOne(rows: seq<Row>, base: seq<Stored>, b: Stored) returns (k: nat)
    requires SameElements(Origins(Filter(rows, Continues)), BaseIds(base)) && b in base
    ensures k < |rows| && Continues(rows[k]) && rows[k].origin == Some(b.id)
  {
    var named := Filter(rows, Continues);
    CountOf(SomeId, base, b);
    assert Some(b.id) in multiset(Origins(named));
    var i :| 0 <= i < |named| && Origins(named)[i] == Some(b.id);
    FilterMembers(rows, Continues);
    assert named[i] in named;
    k :| 0 <= k < |rows| && rows[k] == named[i];
  }
}
