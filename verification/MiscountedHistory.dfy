/** A history of two scans whose second scan is stored with the wrong `resolvedCount`. */
module MiscountedHistory {
  import opened Seqs
  import opened Findings
  import opened StatusMatcher
  import opened PlanFindings
  import opened PlanRows
  import opened ScanCounts
  import opened History
  import JaroWinkler

  /** The first scan of a pull request, and one that matches its findings. */
  function FirstScan(candidates: seq<Content>): Step {
    Step(1, Full, None, [], [], _ => true, {}, [], candidates)
  }

  function SecondScan(loaded: seq<Stored>, candidates: seq<Content>): Step {
    Step(2, Full, Some(0), loaded, [], _ => true, {}, [], candidates)
  }

  function NothingReopened(n: nat): (r: seq<Option<ResolvedFinding>>)
    ensures |r| == n
  {
    seq(n, _ => None)
  }

  /** With nothing to continue and nothing to re-open every candidate is NEW. */
  lemma FirstPlan(norm: string -> string, cs: seq<Content>)
    ensures Plan(norm, InputOf(FirstScan(cs)), 0) == NewRows(cs, NothingReopened(|cs|), 1, 0)
  {
    FirstInput(cs);
    NothingToReopen(norm, cs);
    hide InputOf, FirstScan, AfterMatch, AllReopens, NewRows, NothingReopened;
    assert [] + NewRows(cs, NothingReopened(|cs|), 1, 0) == NewRows(cs, NothingReopened(|cs|), 1, 0);
  }

  lemma FirstInput(cs: seq<Content>)
    ensures var input := InputOf(FirstScan(cs));
            && AfterMatch(input, 0) == Phase([], cs, [])
            && input.alreadyPersisted == None && input.scanId == 1
  {
    assert Base(FirstScan(cs)) == [];
  }

  lemma NothingToReopen(norm: string -> string, cs: seq<Content>)
    ensures AllReopens(norm, cs, []) == NothingReopened(|cs|)
  {
    EmptyPool(norm, cs, |cs|);
    hide Reopens;
  }

  lemma {:induction false} EmptyPool(norm: string -> string, cs: seq<Content>, n: nat)
    requires n <= |cs|
    ensures PoolAfter(norm, cs, [], n) == []
    ensures forall i :: 0 <= i < n ==> Reopens(norm, cs, [], i) == None
    decreases n
  {
    if n > 0 {
      EmptyPool(norm, cs, n - 1);
    }
  }

  /** Base findings with fingerprints of their own, none of them a candidate's. */
  ghost predicate Unshared(cs: seq<Content>, base: seq<Stored>) {
    && (forall i, j :: 0 <= i < j < |base| ==> StoredFingerprint(base[i]) != StoredFingerprint(base[j]))
    && (forall i, j :: 0 <= i < |cs| && 0 <= j < |base| ==> ContentFingerprint(cs[i]) != StoredFingerprint(base[j]))
  }

  lemma {:induction false} OnlyItself(cs: seq<Content>, base: seq<Stored>, k: nat, n: nat)
    requires Unshared(cs, base) && k < |base| && n <= |base|
    ensures WithFp(base, StoredFingerprint, StoredFingerprint(base[k]), n) == if k < n then [base[k]] else []
    decreases n
  {
    if n > 0 {
      OnlyItself(cs, base, k, n - 1);
    }
  }

  /** Nothing is paired, and each base finding is left. */
  lemma NothingTaken(cs: seq<Content>, base: seq<Stored>, k: nat)
    requires Unshared(cs, base) && k < |base|
    ensures Remaining(cs, base, StoredFingerprint(base[k]), |cs|) == [base[k]]
  {
    OnlyItself(cs, base, k, |base|);
    AllAlike(cs, ContentFingerprint, StoredFingerprint(base[k]), |cs|);
  }

  lemma NothingLeftFor(cs: seq<Content>, base: seq<Stored>, n: nat)
    requires Unshared(cs, base) && n < |cs|
    ensures Remaining(cs, base, cs[n].fingerprint, n) == []
  {
    assert forall j :: 0 <= j < |base| ==> StoredFingerprint(base[j]) != ContentFingerprint(cs[n]);
    hide Unshared, WithFp;
    AllAlike(base, StoredFingerprint, ContentFingerprint(cs[n]), |base|);
  }

  ghost predicate NonePaired(cs: seq<Content>, base: seq<Stored>, n: nat)
    requires n <= |cs|
  {
    Pairs(cs, base, n) == [] && Fresh(cs, base, n) == cs[..n]
  }

  lemma NextIsNotPaired(cs: seq<Content>, base: seq<Stored>, n: nat)
    requires Unshared(cs, base) && n < |cs| && NonePaired(cs, base, n)
    ensures NonePaired(cs, base, n + 1)
  {
    NothingLeftFor(cs, base, n);
    PairStep(cs, base, n);
    hide Pairs, Fresh, Remaining, Unshared;
    PrefixSnoc(cs, n);
  }

  lemma {:induction false} NothingMatches(cs: seq<Content>, base: seq<Stored>, n: nat)
    requires Unshared(cs, base) && n <= |cs|
    ensures NonePaired(cs, base, n)
    decreases n
  {
    if n > 0 {
      hide *;
      NothingMatches(cs, base, n - 1);
      NextIsNotPaired(cs, base, n - 1);
    }
  }

  lemma {:induction false} EachIsAKey(cs: seq<Content>, base: seq<Stored>, n: nat)
    requires Unshared(cs, base) && n <= |base|
    ensures |Keys(base, n)| == n && forall k :: 0 <= k < n ==> Keys(base, n)[k] == StoredFingerprint(base[k])
    decreases n
  {
    if n > 0 {
      EachIsAKey(cs, base, n - 1);
    }
  }

  lemma {:induction false} EachIsLeft(cs: seq<Content>, base: seq<Stored>, keys: seq<string>, n: nat)
    requires Unshared(cs, base) && n <= |base| == |keys|
    requires forall k :: 0 <= k < |keys| ==> keys[k] == StoredFingerprint(base[k])
    ensures Leftovers(cs, base, keys, n) == base[..n]
    decreases n
  {
    if n > 0 {
      EachIsLeft(cs, base, keys, n - 1);
      NothingTaken(cs, base, n - 1);
      hide Remaining;
      assert base[..n] == base[..n - 1] + [base[n - 1]];
    }
  }

  lemma AllUnmatched(cs: seq<Content>, base: seq<Stored>)
    requires Unshared(cs, base)
    ensures Pairs(cs, base, |cs|) == [] && Fresh(cs, base, |cs|) == cs && Unmatched(cs, base) == base
  {
    NothingMatches(cs, base, |cs|);
    EachIsAKey(cs, base, |base|);
    EachIsLeft(cs, base, Keys(base, |base|), |base|);
    hide Pairs, Fresh, Leftovers, Keys;
    assert cs[..|cs|] == cs && base[..|base|] == base;
  }

  /** A candidate like the first entry of the pool, but for its fingerprint, re-opens it. */
  lemma ReopensFirst(norm: string -> string, x: Content, pool: seq<ResolvedFinding>)
    requires |pool| == 2 && pool[0].what == MatchableOf(x).(fingerprint := pool[0].what.fingerprint)
    requires x.fingerprint != pool[0].what.fingerprint && x.fingerprint != pool[1].what.fingerprint
    ensures AllReopens(norm, [x], pool) == [Some(pool[0])]
  {
    var c := MatchableOf(x);
    JaroWinkler.ScoreBounds(norm(c.title), norm(c.title));
    hide JaroWinkler.Score;
    assert IsSame(norm, c, pool[0].what);
    assert FirstExact(c, pool, 2) == 2 && FirstExact(c, pool, 1) == 2 && FirstExact(c, pool, 0) == 2;
    assert FirstSame(norm, c, pool, 0) == 0;
    assert PoolAfter(norm, [x], pool, 0) == pool;
    assert Reopens(norm, [x], pool, 0) == Some(pool[0]);
  }

  /** The second plan closes both base findings and lets the candidate re-open the first. */
  lemma SecondPlan(norm: string -> string, x: Content, a: Stored, b: Stored)
    requires a.content.source == Static && b.content.source == Static
    requires x.fingerprint != a.content.fingerprint && x.fingerprint != b.content.fingerprint
    requires a.content.fingerprint != b.content.fingerprint
    requires MatchableOf(a.content) == MatchableOf(x).(fingerprint := a.content.fingerprint)
    ensures var closed := ResolvedRows([a, b], 2, 2);
            Plan(norm, InputOf(SecondScan([a, b], [x])), 2) ==
            closed + NewRows([x], [Some(AsResolvedRow(closed[0]))], 2, 4)
  {
    var closed := ResolvedRows([a, b], 2, 2);
    var pool := MapSeq(AsResolvedRow, closed);
    AllStatic(SecondScan([a, b], [x]), a, b);
    ReopensFirst(norm, x, pool);
    AfterClosing(x, a, b);
    hide InputOf, AfterMatch, AllReopens, NewRows, ResolvedRows, MapSeq;
    PlanFrom(norm, PlanInput(2, [x], None, Some([a, b]), None, []), Phase(closed, [x], pool), [Some(pool[0])]);
  }

  lemma PlanFrom(norm: string -> string, input: PlanInput, p: Phase, reopens: seq<Option<ResolvedFinding>>)
    requires input.alreadyPersisted.None? && AfterMatch(input, 2) == p
    requires AllReopens(norm, p.candidates, p.pool) == reopens
    ensures Plan(norm, input, 2) == p.rows + NewRows(p.candidates, reopens, input.scanId, 2 + |p.rows|)
  {
    hide AfterMatch, AllReopens, NewRows;
  }

  lemma AfterClosing(x: Content, a: Stored, b: Stored)
    requires x.fingerprint != a.content.fingerprint && x.fingerprint != b.content.fingerprint
    requires a.content.fingerprint != b.content.fingerprint
    ensures var closed := ResolvedRows([a, b], 2, 2);
            AfterMatch(PlanInput(2, [x], None, Some([a, b]), None, []), 2) ==
            Phase(closed, [x], MapSeq(AsResolvedRow, closed))
  {
    assert Unshared([x], [a, b]);
    hide Unshared;
    AllUnmatched([x], [a, b]);
    NothingPaired([x], [a, b]);
    hide MatchPhase, Pairs, Fresh, Unmatched;
  }

  lemma AllStatic(s: Step, a: Stored, b: Stored)
    requires s == SecondScan([a, b], s.candidates) && a.content.source == Static && b.content.source == Static
    ensures InputOf(s) == PlanInput(2, s.candidates, None, Some([a, b]), None, [])
  {
    KeepsBoth(a, b, Enabled(s));
    KeepsBoth(a, b, IsStatic);
  }

  lemma KeepsBoth<T>(a: T, b: T, p: T -> bool)
    requires p(a) && p(b)
    ensures Filter([a, b], p) == [a, b]
  {
    assert [a, b][..1] == [a] && [a][..0] == [];
    assert Filter([a], p) == [a];
  }

  lemma NothingPaired(cs: seq<Content>, base: seq<Stored>)
    requires Pairs(cs, base, |cs|) == [] && Fresh(cs, base, |cs|) == cs && Unmatched(cs, base) == base
    ensures var closed := ResolvedRows(base, 2, 2);
            MatchPhase(Phase([], cs, []), base, 2, 2) == Phase(closed, cs, MapSeq(AsResolvedRow, closed))
  {
    hide Pairs, Fresh, Unmatched;
    var pairs := PairRows([], 2, 2);
    assert pairs == [];
    hide ResolvedRows, MapSeq, PairRows;
    var closed := ResolvedRows(base, 2, 2);
    assert [] + pairs + closed == closed;
    assert [] + MapSeq(AsResolvedRow, closed) == MapSeq(AsResolvedRow, closed);
  }

  // ------------------------------------------------------------------ the history

  /** A finding set aside, another finding, and the first one found again, not set aside, under a
      fingerprint of its own. */
  ghost predicate AreAtOdds(a: Content, b: Content, x: Content) {
    && a.source == Static && b.source == Static && a.suppressedReason.Some? && b.suppressedReason.None?
    && x == a.(suppressedReason := None, fingerprint := x.fingerprint)
    && a.fingerprint != b.fingerprint && x.fingerprint != a.fingerprint && x.fingerprint != b.fingerprint
  }

  lemma FirstRows(a: Content, b: Content)
    ensures var rows := NewRows([a, b], NothingReopened(2), 1, 0);
            && rows == [FromCandidate(a, 1, New, None, 0), FromCandidate(b, 1, New, None, 1)]
            && MapSeq(AsStored, Filter(rows, IsLive)) == [Stored(0, a, NO_RERUN, 1), Stored(1, b, NO_RERUN, 1)]
            && MapSeq(AsStored, Filter(rows, IsResolved)) == []
  {
    var rows := NewRows([a, b], NothingReopened(2), 1, 0);
    KeepsBoth(rows[0], rows[1], IsLive);
    assert rows == [rows[0], rows[1]];
    assert rows[..1] == [rows[0]] && rows[..1][..0] == [];
    assert Filter(rows[..1], IsResolved) == [];
  }

  /** The first scan reports the two findings. */
  lemma FirstIsReachable(norm: string -> string, a: Content, b: Content) returns (h: seq<Scan>)
    requires a.fingerprint != b.fingerprint
    ensures h == [Scan(1, NewRows([a, b], NothingReopened(2), 1, 0))] && Reachable(norm, h) && IdsBelow(h, 2)
  {
    var s := FirstScan([a, b]);
    h := [Scan(1, NewRows([a, b], NothingReopened(2), 1, 0))];
    FirstPlan(norm, [a, b]);
    TwoFingerprints(a, b);
    hide Plan, InputOf;
    assert RowsOf(Window([])) == [];
    assert Loads([], [], IsResolved);
    assert StepOk([], s);
    assert [] + h == h;
    AppendsAsPlanned(norm, [], h, s, 0, h[0].rows);
    assert h[..0] == [];
    assert Reachable(norm, []);
    GrowsBy(norm, [], h);
  }

  lemma TwoFingerprints(a: Content, b: Content)
    requires a.fingerprint != b.fingerprint
    ensures Distinct(MapSeq(ContentFingerprint, [a, b]))
  {
    var fps := MapSeq(ContentFingerprint, [a, b]);
    assert fps[0] == a.fingerprint && fps[1] == b.fingerprint;
    ApartAreDistinct(fps);
  }

  /** The code writes such a scan: whatever the findings, its stored count misses the second resolution. */
  lemma MiscountIsReachable(norm: string -> string, a: Content, b: Content, x: Content) returns (h: seq<Scan>)
    requires AreAtOdds(a, b, x)
    ensures Reachable(norm, h) && |h| == 2 && IsDisagreement(h[1].rows)
    ensures StoredResolvedCount(h[1].rows) == 0 && StillResolved(h[1].rows) == 1
  {
    assert a.fingerprint != b.fingerprint;
    hide *;
    var first := FirstIsReachable(norm, a, b);
    h := SecondIsReachable(norm, a, b, x, first);
    DisagreementMiscounts(h[1].rows);
  }

  lemma SecondIsReachable(norm: string -> string, a: Content, b: Content, x: Content, first: seq<Scan>)
    returns (h: seq<Scan>)
    requires AreAtOdds(a, b, x) && Reachable(norm, first) && IdsBelow(first, 2)
    requires first == [Scan(1, NewRows([a, b], NothingReopened(2), 1, 0))]
    ensures Reachable(norm, h) && |h| == 2 && IsDisagreement(h[1].rows)
  {
    var a', b' := Stored(0, a, NO_RERUN, 1), Stored(1, b, NO_RERUN, 1);
    var rows := SecondRows(x, a', b');
    hide NewRows, ResolvedRows, Reachable, Extends, IdsBelow, IsDisagreement, Plan, InputOf, SecondScan;
    h := first + [Scan(2, rows)];
    SecondPlan(norm, x, a', b');
    FirstRows(a, b);
    SecondIsAppended(norm, first, h, [a', b'], x, rows);
    assert h[..1] == first;
    GrowsBy(norm, first, h);
  }

  lemma SecondRows(x: Content, a: Stored, b: Stored) returns (rows: seq<Row>)
    requires AreAtOdds(a.content, b.content, x)
    ensures var closed := ResolvedRows([a, b], 2, 2);
            rows == closed + NewRows([x], [Some(AsResolvedRow(closed[0]))], 2, 4)
    ensures IsDisagreement(rows)
  {
    var closed := ResolvedRows([a, b], 2, 2);
    rows := closed + NewRows([x], [Some(AsResolvedRow(closed[0]))], 2, 4);
  }

  lemma GrowsBy(norm: string -> string, before: seq<Scan>, h: seq<Scan>)
    requires h != [] && h[..|h| - 1] == before && Reachable(norm, before) && Extends(norm, before, h)
    ensures Reachable(norm, h)
  {
    hide Extends;
  }

  lemma SecondIsAppended(
    norm: string -> string, first: seq<Scan>, h: seq<Scan>, loaded: seq<Stored>, x: Content, rows: seq<Row>)
    requires |first| == 1 && first[0].scanId == 1 && IdsBelow(first, 2) && h == first + [Scan(2, rows)]
    requires MapSeq(AsStored, Filter(first[0].rows, IsLive)) == loaded
    requires MapSeq(AsStored, Filter(first[0].rows, IsResolved)) == []
    requires Plan(norm, InputOf(SecondScan(loaded, [x])), 2) == rows
    ensures Extends(norm, first, h)
  {
    SecondStepOk(first, loaded, x);
    hide Plan, InputOf, StepOk, IdsBelow;
    AppendsAsPlanned(norm, first, h, SecondScan(loaded, [x]), 2, rows);
  }

  lemma AppendsAsPlanned(
    norm: string -> string, before: seq<Scan>, h: seq<Scan>, s: Step, id: Id, rows: seq<Row>)
    requires StepOk(before, s) && IdsBelow(before, id)
    requires Plan(norm, InputOf(s), id) == rows && h == before + [Scan(s.scanId, rows)]
    ensures Extends(norm, before, h)
  {
    hide Plan, InputOf, StepOk, IdsBelow;
    assert Appends(norm, before, h, s, id);
  }

  lemma SecondStepOk(first: seq<Scan>, loaded: seq<Stored>, x: Content)
    requires |first| == 1 && first[0].scanId == 1
    requires MapSeq(AsStored, Filter(first[0].rows, IsLive)) == loaded
    requires MapSeq(AsStored, Filter(first[0].rows, IsResolved)) == []
    ensures StepOk(first, SecondScan(loaded, [x]))
  {
    WindowOfOne(first, loaded);
    OneFingerprint(x);
    hide Loads, RowsOf, Window, Distinct, Filter, MapSeq;
  }

  lemma WindowOfOne(first: seq<Scan>, loaded: seq<Stored>)
    requires |first| == 1
    requires MapSeq(AsStored, Filter(first[0].rows, IsLive)) == loaded
    requires MapSeq(AsStored, Filter(first[0].rows, IsResolved)) == []
    ensures Loads(loaded, first[0].rows, IsLive) && Loads([], RowsOf(Window(first)), IsResolved)
  {
    hide Filter, MapSeq;
    assert RowsOf(first[..0]) == [];
    assert RowsOf(Window(first)) == [] + first[0].rows == first[0].rows;
  }

  lemma OneFingerprint(x: Content)
    ensures Distinct(MapSeq(ContentFingerprint, [x]))
  {
    ApartAreDistinct(MapSeq(ContentFingerprint, [x]));
  }
}
