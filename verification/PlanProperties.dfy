/** What one plan keeps: every base finding continued once, every candidate accounted for once. */
module PlanProperties {
  import opened Seqs
  import opened Findings
  import opened CarryForward
  import opened StatusMatcher
  import opened PlanFindings

  function OriginOf(row: Row): Option<Id> {
    row.origin
  }

  function SomeId(s: Stored): Option<Id> {
    Some(s.id)
  }

  function Origins(rows: seq<Row>): seq<Option<Id>> {
    MapSeq(OriginOf, rows)
  }

  function BaseIds(stored: seq<Stored>): seq<Option<Id>> {
    MapSeq(SomeId, stored)
  }

  function CarryBase(input: PlanInput): seq<Stored> {
    if input.carry.Some? then input.carry.value.base else []
  }

  function MatchBase(input: PlanInput): seq<Stored> {
    if input.matchBase.Some? then input.matchBase.value else []
  }

  function BaseOf(input: PlanInput): seq<Stored> {
    CarryBase(input) + MatchBase(input)
  }

  // ----- base findings -----

  /** The rows a carry adds name each carried base finding once. */
  lemma CarryNamesBase(p: Phase, carry: CarryInput, scanId: ScanId, id: Id, base: seq<Stored>)
    requires SameElements(Origins(p.rows), BaseIds(base))
    ensures SameElements(Origins(CarryPhase(p, carry, scanId, id).rows), BaseIds(base + carry.base))
  {
    var kept := CarriedRows(Kept(carry), scanId, id + |p.rows|);
    var closed := ResolvedRows(Closed(carry), scanId, id + |p.rows| + |kept|);
    CarryPartitions(carry.base, PlaceOf, CarryWith(Claims(carry.files)));
    SplitMaps(SomeId, carry.base, FindingsOf(Kept(carry)), Closed(carry));
    assert Origins(kept) == BaseIds(FindingsOf(Kept(carry)));
    assert Origins(closed) == BaseIds(Closed(carry));
    SectionsName(p.rows, kept, closed, base, carry.base);
  }

  /** The rows a match adds name each matched base finding once. */
  lemma MatchNamesBase(p: Phase, base': seq<Stored>, scanId: ScanId, id: Id, base: seq<Stored>)
    requires SameElements(Origins(p.rows), BaseIds(base))
    ensures SameElements(Origins(MatchPhase(p, base', scanId, id).rows), BaseIds(base + base'))
  {
    var pairs := Pairs(p.candidates, base', |p.candidates|);
    var paired := PairRows(pairs, scanId, id + |p.rows|);
    var closed := ResolvedRows(Unmatched(p.candidates, base'), scanId, id + |p.rows| + |paired|);
    BasePartition(p.candidates, base');
    SplitMaps(SomeId, base', Bases(pairs), Unmatched(p.candidates, base'));
    assert Origins(paired) == BaseIds(Bases(pairs));
    assert Origins(closed) == BaseIds(Unmatched(p.candidates, base'));
    SectionsName(p.rows, paired, closed, base, base');
  }

  lemma SectionsName(rows: seq<Row>, live: seq<Row>, closed: seq<Row>, base: seq<Stored>, base': seq<Stored>)
    requires SameElements(Origins(rows), BaseIds(base))
    requires SameElements(Origins(live) + Origins(closed), BaseIds(base'))
    ensures SameElements(Origins(rows + live + closed), BaseIds(base + base'))
  {
    MapConcat(OriginOf, rows, live);
    MapConcat(OriginOf, rows + live, closed);
    MapConcat(SomeId, base, base');
    assert Origins(rows + live + closed) == Origins(rows) + (Origins(live) + Origins(closed));
    SameElementsConcat(Origins(rows), Origins(live) + Origins(closed), BaseIds(base), BaseIds(base'));
  }

  function Continues(row: Row): bool {
    row.status == Persisted || row.status == Resolved
  }

  lemma {:induction false} AllContinue(rows: seq<Row>)
    requires OnlyContinues(rows)
    ensures Filter(rows, Continues) == rows
  {
    if rows != [] {
      AllContinue(rows[..|rows| - 1]);
      assert rows == rows[..|rows| - 1] + [rows[|rows| - 1]];
    }
  }

  lemma {:induction false} NoneContinue(rows: seq<Row>)
    requires forall k :: 0 <= k < |rows| ==> !Continues(rows[k])
    ensures Filter(rows, Continues) == []
  {
    if rows != [] {
      NoneContinue(rows[..|rows| - 1]);
    }
  }

  lemma LastNeverContinues(norm: string -> string, p: Phase, already: Option<seq<string>>, scanId: ScanId, id: Id)
    ensures forall k :: 0 <= k < |LastRows(norm, p, already, scanId, id)| ==>
              !Continues(LastRows(norm, p, already, scanId, id)[k])
  {
  }

  /** The rows of a plan that continue something are those of its first phases. */
  lemma ContinuingRows(norm: string -> string, input: PlanInput, id: Id)
    ensures Filter(Plan(norm, input, id), Continues) == AfterMatch(input, id).rows
  {
    var p := AfterMatch(input, id);
    var last := LastRows(norm, p, input.alreadyPersisted, input.scanId, id);
    FirstPhasesOnlyContinue(input, id);
    AllContinue(p.rows);
    LastNeverContinues(norm, p, input.alreadyPersisted, input.scanId, id);
    NoneContinue(last);
    FilterConcat(p.rows, last, Continues);
  }

  lemma AfterCarryNamesBase(input: PlanInput, id: Id)
    ensures SameElements(Origins(AfterCarry(input, id).rows), BaseIds(CarryBase(input)))
  {
    assert [] + CarryBase(input) == CarryBase(input);
    assert Origins([]) == [] == BaseIds([]);
    hide CarryPhase, SameElements, Origins, BaseIds;
    if input.carry.Some? {
      assert SameElements<Option<Id>>([], []) by { Reflexive<Option<Id>>([]); }
      CarryNamesBase(StartPhase(input), input.carry.value, input.scanId, id, []);
    } else {
      Reflexive<Option<Id>>([]);
    }
  }

  lemma Reflexive<T>(s: seq<T>)
    ensures SameElements(s, s)
  {
  }

  lemma FirstPhasesNameBase(input: PlanInput, id: Id)
    ensures SameElements(Origins(AfterMatch(input, id).rows), BaseIds(BaseOf(input)))
  {
    AfterCarryNamesBase(input, id);
    assert CarryBase(input) + [] == CarryBase(input);
    hide AfterCarry, CarryPhase, MatchPhase, SameElements, Origins, BaseIds, CarryBase;
    if input.matchBase.Some? {
      MatchNamesBase(AfterCarry(input, id), input.matchBase.value, input.scanId, id, CarryBase(input));
    }
  }

  /** Planning conserves base findings: the origins of the PERSISTED and RESOLVED rows are the
      carried and matched base findings, each exactly as often as it came in. */
  lemma PlanConservesBase(norm: string -> string, input: PlanInput, id: Id)
    ensures SameElements(Origins(Filter(Plan(norm, input, id), Continues)), BaseIds(BaseOf(input)))
  {
    ContinuingRows(norm, input, id);
    FirstPhasesNameBase(input, id);
  }

  // ----- candidates -----

  function RowContent(row: Row): Content {
    row.content
  }

  predicate IsKnown(c: Content, known: set<string>) {
    c.fingerprint in known
  }

  function KnownIn(known: set<string>): Content -> bool {
    c => IsKnown(c, known)
  }

  function KnownDropped(cs: seq<Content>, known: set<string>): seq<Content> {
    Filter(cs, KnownIn(known))
  }

  lemma DropSplits(cs: seq<Content>, known: set<string>)
    ensures multiset(cs) == multiset(DropPersistedDuplicates(cs, known)) + multiset(KnownDropped(cs, known))
    ensures forall c :: c in DropPersistedDuplicates(cs, known) ==> c in cs && c.fingerprint !in known
    ensures forall c :: c in KnownDropped(cs, known) ==> c.fingerprint in known
  {
    FilterSplits(cs, StillWanted(known), KnownIn(known));
    FilterMembers(cs, StillWanted(known));
    FilterMembers(cs, KnownIn(known));
  }

  /** Fingerprints of the base findings a carry keeps. */
  function KeptFingerprints(input: PlanInput): set<string> {
    if input.carry.Some? then Fingerprints(FindingsOf(Kept(input.carry.value))) else {}
  }

  function AlreadyPersisted(input: PlanInput): set<string> {
    if input.alreadyPersisted.Some? then AsSet(input.alreadyPersisted.value) else {}
  }

  /** The candidates paired with a base finding. */
  function PairedCandidates(input: PlanInput, id: Id): seq<Content> {
    if input.matchBase.Some? then
      var cs := AfterCarry(input, id).candidates;
      Candidates(Pairs(cs, input.matchBase.value, |cs|))
    else []
  }

  function Dropped(input: PlanInput, id: Id): seq<Content> {
    KnownDropped(input.candidates, KeptFingerprints(input))
    + KnownDropped(AfterMatch(input, id).candidates, AlreadyPersisted(input))
  }

  lemma {:induction false} NothingKnown(cs: seq<Content>)
    ensures KnownDropped(cs, {}) == []
  {
    if cs != [] {
      NothingKnown(cs[..|cs| - 1]);
    }
  }

  lemma CarryAccounts(input: PlanInput, id: Id)
    ensures SameElements(AfterCarry(input, id).candidates + KnownDropped(input.candidates, KeptFingerprints(input)),
                         input.candidates)
  {
    if input.carry.Some? {
      DropSplits(input.candidates, KeptFingerprints(input));
    } else {
      NothingKnown(input.candidates);
    }
  }

  lemma MatchAccounts(input: PlanInput, id: Id)
    ensures SameElements(PairedCandidates(input, id) + AfterMatch(input, id).candidates, AfterCarry(input, id).candidates)
  {
    if input.matchBase.Some? {
      var cs := AfterCarry(input, id).candidates;
      CandidatesPartition(cs, input.matchBase.value, |cs|);
      assert cs[..|cs|] == cs;
    }
  }

  lemma DropAccounts(cs: seq<Content>, already: Option<seq<string>>)
    ensures SameElements(Undropped(cs, already) + KnownDropped(cs, if already.Some? then AsSet(already.value) else {}), cs)
  {
    if already.Some? {
      DropSplits(cs, AsSet(already.value));
    } else {
      NothingKnown(cs);
    }
  }

  function LastContents(input: PlanInput, id: Id): seq<Content> {
    Undropped(AfterMatch(input, id).candidates, input.alreadyPersisted)
  }

  /** What the sums of the three phases come to. */
  lemma Accounts<T>(all: seq<T>, a: seq<T>, d1: seq<T>, paired: seq<T>, b: seq<T>, last: seq<T>, d2: seq<T>)
    requires SameElements(a + d1, all) && SameElements(paired + b, a) && SameElements(last + d2, b)
    ensures SameElements(paired + last + (d1 + d2), all)
  {
  }

  /** Each candidate is dropped, paired with one base finding, or left over, as often as it came in. */
  lemma CandidatesAddUp(input: PlanInput, id: Id)
    ensures SameElements(PairedCandidates(input, id) + LastContents(input, id) + Dropped(input, id), input.candidates)
  {
    CarryAccounts(input, id);
    MatchAccounts(input, id);
    DropAccounts(AfterMatch(input, id).candidates, input.alreadyPersisted);
    Accounts(input.candidates,
             AfterCarry(input, id).candidates, KnownDropped(input.candidates, KeptFingerprints(input)),
             PairedCandidates(input, id), AfterMatch(input, id).candidates,
             LastContents(input, id), KnownDropped(AfterMatch(input, id).candidates, AlreadyPersisted(input)));
  }

  /** What is dropped was already persisted, and nothing already persisted is paired or written anew. */
  lemma DroppedExactlyWhenPersisted(input: PlanInput, id: Id, c: Content)
    ensures c in Dropped(input, id) ==> c.fingerprint in KeptFingerprints(input) + AlreadyPersisted(input)
    ensures c in PairedCandidates(input, id) ==> c.fingerprint !in KeptFingerprints(input)
    ensures c in LastContents(input, id) ==> c.fingerprint !in KeptFingerprints(input) + AlreadyPersisted(input)
  {
    DropSplits(input.candidates, KeptFingerprints(input));
    DropSplits(AfterMatch(input, id).candidates, AlreadyPersisted(input));
    MatchAccounts(input, id);
    InOneOf(PairedCandidates(input, id), AfterMatch(input, id).candidates, AfterCarry(input, id).candidates, c);
  }

  lemma InOneOf<T>(s: seq<T>, t: seq<T>, all: seq<T>, x: T)
    requires SameElements(s + t, all)
    ensures x in s || x in t <==> x in all
  {
    assert x in s + t <==> x in multiset(s + t);
    assert x in all <==> x in multiset(all);
  }

  // ----- exactly one -----

  /** With distinct base ids, exactly one PERSISTED or RESOLVED row names each base finding. */
  lemma ExactlyOneContinues(norm: string -> string, input: PlanInput, id: Id, b: Stored)
    requires Distinct(BaseIds(BaseOf(input))) && b in BaseOf(input)
    ensures multiset(Origins(Filter(Plan(norm, input, id), Continues)))[Some(b.id)] == 1
  {
    PlanConservesBase(norm, input, id);
    CountOf(SomeId, BaseOf(input), b);
  }
}
