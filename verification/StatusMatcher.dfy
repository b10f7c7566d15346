/** Who continues, re-opens or is new: src/queue/lifecycle/status-matcher.ts. */
module StatusMatcher {
  import opened Seqs
  import opened Findings
  import JaroWinkler

  const REOPEN_LINE_DISTANCE := 5
  const REOPEN_TITLE_SIMILARITY := 0.85

  function Abs(x: int): nat {
    if x < 0 then -x else x
  }

  predicate NotKnown(c: Content, known: set<string>) {
    c.fingerprint !in known
  }

  function StillWanted(known: set<string>): Content -> bool {
    c => NotKnown(c, known)
  }

  /** Candidates whose fingerprint is already persisted are dropped, the rest kept in order. */
  function DropPersistedDuplicates(candidates: seq<Content>, known: set<string>): seq<Content> {
    Filter(candidates, StillWanted(known))
  }

  // ----- the same finding -----

  /** `norm` is the title normalisation. */
  ghost predicate IsSame(norm: string -> string, a: Matchable, b: Matchable) {
    a.fingerprint == b.fingerprint || IsSimilar(norm, a, b)
  }

  ghost predicate IsSimilar(norm: string -> string, a: Matchable, b: Matchable) {
    && a.source == b.source && a.filePath == b.filePath && a.category == b.category
    && Abs(a.lineStart - b.lineStart) <= REOPEN_LINE_DISTANCE
    && JaroWinkler.Score(norm(a.title), norm(b.title)) >= REOPEN_TITLE_SIMILARITY
  }

  method IsSameFinding(norm: string -> string, a: Matchable, b: Matchable) returns (r: bool)
    ensures r == IsSame(norm, a, b)
  {
    if a.fingerprint == b.fingerprint {
      return true;
    }
    if a.source != b.source || a.filePath != b.filePath || a.category != b.category
       || Abs(a.lineStart - b.lineStart) > REOPEN_LINE_DISTANCE {
      return false;
    }
    var similarity := JaroWinkler.ComputeJaroWinkler(norm(a.title), norm(b.title));
    return similarity >= REOPEN_TITLE_SIMILARITY;
  }

  // ----- re-opening -----

  /** Where in the pool the first exact match at or after i is; the pool's length if nowhere. */
  function FirstExact(c: Matchable, pool: seq<ResolvedFinding>, i: nat): (r: nat)
    requires i <= |pool|
    ensures i <= r <= |pool|
    decreases |pool| - i
  {
    if i == |pool| || pool[i].what.fingerprint == c.fingerprint then i else FirstExact(c, pool, i + 1)
  }

  lemma {:induction false} FirstExactIsFirst(c: Matchable, pool: seq<ResolvedFinding>, i: nat)
    requires i <= |pool|
    ensures var r := FirstExact(c, pool, i);
            && (r < |pool| ==> pool[r].what.fingerprint == c.fingerprint)
            && forall k :: i <= k < r ==> pool[k].what.fingerprint != c.fingerprint
    decreases |pool| - i
  {
    if i < |pool| {
      FirstExactIsFirst(c, pool, i + 1);
    }
  }

  ghost function FirstSame(norm: string -> string, c: Matchable, pool: seq<ResolvedFinding>, i: nat): (r: nat)
    requires i <= |pool|
    ensures i <= r <= |pool|
    decreases |pool| - i
  {
    if i == |pool| || IsSame(norm, c, pool[i].what) then i else FirstSame(norm, c, pool, i + 1)
  }

  lemma {:induction false} FirstSameIsFirst(norm: string -> string, c: Matchable, pool: seq<ResolvedFinding>, i: nat)
    requires i <= |pool|
    ensures var r := FirstSame(norm, c, pool, i);
            && (r < |pool| ==> IsSame(norm, c, pool[r].what))
            && forall k :: i <= k < r ==> !IsSame(norm, c, pool[k].what)
    decreases |pool| - i
  {
    if i < |pool| {
      FirstSameIsFirst(norm, c, pool, i + 1);
    }
  }

  /** The pool entry a candidate re-opens: an exact match first, then a similar one. */
  ghost function ReopenIndex(norm: string -> string, c: Matchable, pool: seq<ResolvedFinding>): (r: nat)
    ensures r <= |pool|
  {
    if FirstExact(c, pool, 0) < |pool| then FirstExact(c, pool, 0) else FirstSame(norm, c, pool, 0)
  }

  method FindReopened(norm: string -> string, c: Matchable, pool: seq<ResolvedFinding>) returns (r: nat)
    ensures r == ReopenIndex(norm, c, pool)
  {
    r := 0;
    while r < |pool| && pool[r].what.fingerprint != c.fingerprint
      invariant r <= |pool| && FirstExact(c, pool, r) == FirstExact(c, pool, 0)
    {
      r := r + 1;
    }
    if r < |pool| {
      return;
    }
    r := 0;
    while r < |pool|
      invariant r <= |pool| && FirstSame(norm, c, pool, r) == FirstSame(norm, c, pool, 0)
    {
      var same := IsSameFinding(norm, c, pool[r].what);
      if same {
        return;
      }
      r := r + 1;
    }
  }

  function RemoveAt<T>(s: seq<T>, k: nat): seq<T>
    requires k < |s|
  {
    s[..k] + s[k + 1..]
  }

  lemma RemoveAtKeepsRest<T>(s: seq<T>, k: nat)
    requires k < |s|
    ensures multiset(s) == multiset{s[k]} + multiset(RemoveAt(s, k))
  {
    assert s == s[..k] + [s[k]] + s[k + 1..];
  }

  /** What is left in the pool after the first n candidates. */
  ghost function PoolAfter(norm: string -> string, cs: seq<Content>, resolved: seq<ResolvedFinding>, n: nat): seq<ResolvedFinding>
    requires n <= |cs|
  {
    if n == 0 then resolved
    else
      var pool := PoolAfter(norm, cs, resolved, n - 1);
      var k := ReopenIndex(norm, MatchableOf(cs[n - 1]), pool);
      if k < |pool| then RemoveAt(pool, k) else pool
  }

  /** What candidate i re-opens, if anything. */
  ghost function Reopens(norm: string -> string, cs: seq<Content>, resolved: seq<ResolvedFinding>, i: nat): Option<ResolvedFinding>
    requires i < |cs|
  {
    var pool := PoolAfter(norm, cs, resolved, i);
    var k := ReopenIndex(norm, MatchableOf(cs[i]), pool);
    if k < |pool| then Some(pool[k]) else None
  }

  /** What each candidate re-opens. */
  ghost function AllReopens(norm: string -> string, cs: seq<Content>, pool: seq<ResolvedFinding>): (r: seq<Option<ResolvedFinding>>)
    ensures |r| == |cs|
  {
    seq(|cs|, i requires 0 <= i < |cs| => Reopens(norm, cs, pool, i))
  }

  lemma AllReopensSnoc(norm: string -> string, cs: seq<Content>, pool: seq<ResolvedFinding>, i: nat)
    requires i < |cs|
    ensures AllReopens(norm, cs, pool)[..i + 1] == AllReopens(norm, cs, pool)[..i] + [Reopens(norm, cs, pool, i)]
  {
    PrefixSnoc(AllReopens(norm, cs, pool), i);
  }

  method AssignNewOrReopened(norm: string -> string, candidates: seq<Content>, resolved: seq<ResolvedFinding>)
    returns (reopens: seq<Option<ResolvedFinding>>)
    ensures reopens == AllReopens(norm, candidates, resolved)
  {
    var pool := resolved;
    reopens := [];
    ghost var all := AllReopens(norm, candidates, resolved);
    assert PoolAfter(norm, candidates, resolved, 0) == resolved;
    hide AllReopens, Reopens, PoolAfter, ReopenIndex;
    for i := 0 to |candidates|
      invariant pool == PoolAfter(norm, candidates, resolved, i)
      invariant reopens == all[..i]
    {
      ReopenStep(norm, candidates, resolved, i);
      AllReopensSnoc(norm, candidates, resolved, i);
      var at := FindReopened(norm, MatchableOf(candidates[i]), pool);
      if at < |pool| {
        reopens := reopens + [Some(pool[at])];
        pool := pool[..at] + pool[at + 1..];
      } else {
        reopens := reopens + [None];
      }
    }
  }

  /** The findings the first n candidates re-open, in order. */
  ghost function ReopenedBy(norm: string -> string, cs: seq<Content>, resolved: seq<ResolvedFinding>, n: nat): seq<ResolvedFinding>
    requires n <= |cs|
  {
    if n == 0 then []
    else
      var r := Reopens(norm, cs, resolved, n - 1);
      if r.Some? then ReopenedBy(norm, cs, resolved, n - 1) + [r.value] else ReopenedBy(norm, cs, resolved, n - 1)
  }

  /** `all` is split between `a` and `b`. */
  ghost predicate MakeUp<T>(a: seq<T>, b: seq<T>, all: seq<T>) {
    multiset(a) + multiset(b) == multiset(all)
  }

  /** Each resolved finding re-opens at most one candidate: what is re-opened and what is left make up the pool. */
  lemma {:induction false} ReopeningConserves(norm: string -> string, cs: seq<Content>, resolved: seq<ResolvedFinding>, n: nat)
    requires n <= |cs|
    ensures MakeUp(ReopenedBy(norm, cs, resolved, n), PoolAfter(norm, cs, resolved, n), resolved)
    decreases n
  {
    if n > 0 {
      hide *;
      ReopeningConserves(norm, cs, resolved, n - 1);
      NextReopenConserves(norm, cs, resolved, n - 1);
    }
  }

  lemma NextReopenConserves(norm: string -> string, cs: seq<Content>, resolved: seq<ResolvedFinding>, n: nat)
    requires n < |cs| && MakeUp(ReopenedBy(norm, cs, resolved, n), PoolAfter(norm, cs, resolved, n), resolved)
    ensures MakeUp(ReopenedBy(norm, cs, resolved, n + 1), PoolAfter(norm, cs, resolved, n + 1), resolved)
  {
    ReopenStep(norm, cs, resolved, n);
    hide MakeUp, ReopenIndex, ReopenedBy, PoolAfter, RemoveAt;
    var pool := PoolAfter(norm, cs, resolved, n);
    TakeOne(ReopenedBy(norm, cs, resolved, n), pool, ReopenIndex(norm, MatchableOf(cs[n]), pool), resolved,
            ReopenedBy(norm, cs, resolved, n + 1), PoolAfter(norm, cs, resolved, n + 1));
  }

  lemma TakeOne<T>(taken: seq<T>, pool: seq<T>, k: nat, all: seq<T>, taken': seq<T>, pool': seq<T>)
    requires MakeUp(taken, pool, all)
    requires taken' == if k < |pool| then taken + [pool[k]] else taken
    requires pool' == if k < |pool| then RemoveAt(pool, k) else pool
    ensures MakeUp(taken', pool', all)
  {
    if k < |pool| {
      RemoveAtKeepsRest(pool, k);
    }
  }

  lemma {:induction false} ReopenStep(norm: string -> string, cs: seq<Content>, resolved: seq<ResolvedFinding>, n: nat)
    requires n < |cs|
    ensures var pool := PoolAfter(norm, cs, resolved, n);
            var taken := ReopenedBy(norm, cs, resolved, n);
            var k := ReopenIndex(norm, MatchableOf(cs[n]), pool);
            && Reopens(norm, cs, resolved, n) == (if k < |pool| then Some(pool[k]) else None)
            && PoolAfter(norm, cs, resolved, n + 1) == (if k < |pool| then RemoveAt(pool, k) else pool)
            && ReopenedBy(norm, cs, resolved, n + 1) == (if k < |pool| then taken + [pool[k]] else taken)
  {
  }

  /** A candidate re-opens an exact match when one is left, otherwise a similar finding, and is new
      only when nothing left in the pool is the same finding. */
  lemma ReopeningIsGreedy(norm: string -> string, cs: seq<Content>, resolved: seq<ResolvedFinding>, i: nat)
    requires i < |cs|
    ensures var pool := PoolAfter(norm, cs, resolved, i);
            var c := MatchableOf(cs[i]);
            var r := Reopens(norm, cs, resolved, i);
            && (r.Some? ==> r.value in pool && IsSame(norm, c, r.value.what))
            && (r.Some? && (exists x :: x in pool && x.what.fingerprint == c.fingerprint)
                ==> r.value.what.fingerprint == c.fingerprint)
            && (r.None? <==> forall x :: x in pool ==> !IsSame(norm, c, x.what))
  {
    var pool := PoolAfter(norm, cs, resolved, i);
    FirstExactIsFirst(MatchableOf(cs[i]), pool, 0);
    FirstSameIsFirst(norm, MatchableOf(cs[i]), pool, 0);
  }

  // ----- matching a full scan against its base -----

  /** The elements with fingerprint f among the first n, in order. */
  function WithFp<T>(s: seq<T>, fp: T -> string, f: string, n: nat): (r: seq<T>)
    requires n <= |s|
    ensures |r| <= n
  {
    if n == 0 then []
    else if fp(s[n - 1]) == f then WithFp(s, fp, f, n - 1) + [s[n - 1]]
    else WithFp(s, fp, f, n - 1)
  }

  function AllWithFp<T>(s: seq<T>, fp: T -> string, f: string): seq<T> {
    WithFp(s, fp, f, |s|)
  }

  lemma {:induction false} WithFpAlike<T>(s: seq<T>, fp: T -> string, f: string, n: nat)
    requires n <= |s|
    ensures forall i :: 0 <= i < |WithFp(s, fp, f, n)| ==> fp(WithFp(s, fp, f, n)[i]) == f
  {
    if n > 0 {
      WithFpAlike(s, fp, f, n - 1);
    }
  }

  lemma {:induction false} WithFpFrom<T>(s: seq<T>, fp: T -> string, f: string, n: nat)
    requires n <= |s|
    ensures forall i :: 0 <= i < |WithFp(s, fp, f, n)| ==> WithFp(s, fp, f, n)[i] in s
  {
    if n > 0 {
      WithFpFrom(s, fp, f, n - 1);
    }
  }

  /** The base findings with fingerprint f nobody among the first n candidates took. */
  function Remaining(cs: seq<Content>, base: seq<Stored>, f: string, n: nat): seq<Stored>
    requires n <= |cs|
  {
    var bs := AllWithFp(base, StoredFingerprint, f);
    bs[Min(|WithFp(cs, ContentFingerprint, f, n)|, |bs|)..]
  }

  datatype Pair = Pair(candidate: Content, base: Stored)

  function PairFingerprint(p: Pair): string {
    p.candidate.fingerprint
  }

  /** The pairs among the first n candidates: each takes the oldest base finding left with its fingerprint. */
  function Pairs(cs: seq<Content>, base: seq<Stored>, n: nat): seq<Pair>
    requires n <= |cs|
  {
    if n == 0 then []
    else
      var left := Remaining(cs, base, cs[n - 1].fingerprint, n - 1);
      if left == [] then Pairs(cs, base, n - 1) else Pairs(cs, base, n - 1) + [Pair(cs[n - 1], left[0])]
  }

  function Fresh(cs: seq<Content>, base: seq<Stored>, n: nat): seq<Content>
    requires n <= |cs|
  {
    if n == 0 then []
    else if Remaining(cs, base, cs[n - 1].fingerprint, n - 1) == [] then Fresh(cs, base, n - 1) + [cs[n - 1]]
    else Fresh(cs, base, n - 1)
  }

  /** Fingerprints of the first n base findings, in order of first appearance. */
  function Keys(base: seq<Stored>, n: nat): (r: seq<string>)
    requires n <= |base|
  {
    if n == 0 then []
    else
      var f := base[n - 1].content.fingerprint;
      if f in Keys(base, n - 1) then Keys(base, n - 1) else Keys(base, n - 1) + [f]
  }

  lemma {:induction false} KeysCover(base: seq<Stored>, f: string, n: nat)
    requires n <= |base|
    ensures f in Keys(base, n) <==> WithFp(base, StoredFingerprint, f, n) != []
  {
    if n > 0 {
      KeysCover(base, f, n - 1);
    }
  }

  lemma WithFpStep<T>(s: seq<T>, fp: T -> string, f: string, n: nat)
    requires n < |s|
    ensures WithFp(s, fp, f, n + 1) == if fp(s[n]) == f then WithFp(s, fp, f, n) + [s[n]] else WithFp(s, fp, f, n)
  {
  }

  /** What nobody took, key by key, for the first k keys. */
  function Leftovers(cs: seq<Content>, base: seq<Stored>, keys: seq<string>, k: nat): seq<Stored>
    requires k <= |keys|
  {
    if k == 0 then []
    else Leftovers(cs, base, keys, k - 1) + Remaining(cs, base, keys[k - 1], |cs|)
  }

  function Unmatched(cs: seq<Content>, base: seq<Stored>): seq<Stored> {
    Leftovers(cs, base, Keys(base, |base|), |Keys(base, |base|)|)
  }

  lemma FullPool(pool: map<string, seq<Stored>>, cs: seq<Content>, base: seq<Stored>)
    requires QueuedTo(pool, base, |base|)
    ensures PoolAt(pool, cs, base, 0)
  {
  }

  lemma RemainingStep(cs: seq<Content>, base: seq<Stored>, f: string, n: nat)
    requires n < |cs|
    ensures var left := Remaining(cs, base, f, n);
            Remaining(cs, base, f, n + 1) == if cs[n].fingerprint == f && left != [] then left[1..] else left
  {
  }

  /** Candidate n takes the oldest base finding left with its fingerprint; the rest stays. */
  lemma PairStep(cs: seq<Content>, base: seq<Stored>, n: nat)
    requires n < |cs|
    ensures var left := Remaining(cs, base, cs[n].fingerprint, n);
            && Pairs(cs, base, n + 1)
               == (if left == [] then Pairs(cs, base, n) else Pairs(cs, base, n) + [Pair(cs[n], left[0])])
            && Fresh(cs, base, n + 1) == (if left == [] then Fresh(cs, base, n) + [cs[n]] else Fresh(cs, base, n))
  {
  }

  /** Each key's queue is what is left of it after the first n candidates. */
  ghost predicate PoolAt(pool: map<string, seq<Stored>>, cs: seq<Content>, base: seq<Stored>, n: nat)
    requires n <= |cs|
  {
    && (forall f :: f in pool <==> f in Keys(base, |base|))
    && (forall f :: f in pool ==> pool[f] == Remaining(cs, base, f, n))
  }

  function Queue(pool: map<string, seq<Stored>>, f: string): seq<Stored> {
    if f in pool then pool[f] else []
  }

  lemma QueueIsRemaining(pool: map<string, seq<Stored>>, cs: seq<Content>, base: seq<Stored>, f: string, n: nat)
    requires n <= |cs| && PoolAt(pool, cs, base, n)
    ensures Queue(pool, f) == Remaining(cs, base, f, n)
  {
    KeysCover(base, f, |base|);
  }

  lemma PoolStep(pool: map<string, seq<Stored>>, cs: seq<Content>, base: seq<Stored>, n: nat)
    requires n < |cs| && PoolAt(pool, cs, base, n)
    ensures var queue := Queue(pool, cs[n].fingerprint);
            PoolAt(if queue == [] then pool else pool[cs[n].fingerprint := queue[1..]], cs, base, n + 1)
  {
    forall g | g in pool
      ensures Remaining(cs, base, g, n + 1)
           == if g == cs[n].fingerprint && pool[g] != [] then pool[g][1..] else pool[g]
    {
      RemainingStep(cs, base, g, n);
    }
  }

  /** The queues of the first n base findings. */
  ghost predicate QueuedTo(pool: map<string, seq<Stored>>, base: seq<Stored>, n: nat)
    requires n <= |base|
  {
    && (forall f :: f in pool <==> f in Keys(base, n))
    && (forall f :: f in pool ==> pool[f] == WithFp(base, StoredFingerprint, f, n))
  }

  lemma QueueStep(pool: map<string, seq<Stored>>, base: seq<Stored>, n: nat)
    requires n < |base| && QueuedTo(pool, base, n)
    ensures var f := base[n].content.fingerprint;
            && QueuedTo(pool[f := Queue(pool, f) + [base[n]]], base, n + 1)
            && Keys(base, n + 1) == if f in pool then Keys(base, n) else Keys(base, n) + [f]
  {
    var f := base[n].content.fingerprint;
    KeysCover(base, f, n);
    forall g
      ensures WithFp(base, StoredFingerprint, g, n + 1)
           == if f == g then WithFp(base, StoredFingerprint, g, n) + [base[n]] else WithFp(base, StoredFingerprint, g, n)
    {
      WithFpStep(base, StoredFingerprint, g, n);
    }
  }

  /** The base findings queued by fingerprint, in a Map that remembers the order its keys came in. */
  method BuildPool(base: seq<Stored>) returns (pool: map<string, seq<Stored>>, order: seq<string>)
    ensures order == Keys(base, |base|) && QueuedTo(pool, base, |base|)
  {
    hide Keys, QueuedTo, Queue;
    pool, order := map[], [];
    QueuedNone(base);
    for i := 0 to |base|
      invariant order == Keys(base, i) && QueuedTo(pool, base, i)
    {
      var f := base[i].content.fingerprint;
      QueueStep(pool, base, i);
      if f !in pool {
        order := order + [f];
      }
      var list := Queue(pool, f);
      pool := pool[f := list + [base[i]]];
    }
  }

  lemma QueuedNone(base: seq<Stored>)
    ensures Keys(base, 0) == [] && QueuedTo(map[], base, 0)
  {
  }

  /** Each candidate in turn shifts the queue of its fingerprint. */
  method PairUp(candidates: seq<Content>, base: seq<Stored>, pool0: map<string, seq<Stored>>)
    returns (persisted: seq<Pair>, unpaired: seq<Content>, pool: map<string, seq<Stored>>)
    requires PoolAt(pool0, candidates, base, 0)
    ensures persisted == Pairs(candidates, base, |candidates|)
    ensures unpaired == Fresh(candidates, base, |candidates|)
    ensures PoolAt(pool, candidates, base, |candidates|)
  {
    hide Paired, PoolAt, Pairs, Fresh, Queue;
    persisted, unpaired, pool := [], [], pool0;
    PairedNone(candidates, base, pool);
    for i := 0 to |candidates|
      invariant Paired(candidates, base, persisted, unpaired, pool, i)
    {
      var candidate := candidates[i];
      var f := candidate.fingerprint;
      var queue := Queue(pool, f);
      PairedStep(candidates, base, persisted, unpaired, pool, i);
      if queue != [] {
        persisted := persisted + [Pair(candidate, queue[0])];
        pool := pool[f := queue[1..]];
      } else {
        unpaired := unpaired + [candidate];
      }
    }
    PairedAll(candidates, base, persisted, unpaired, pool);
  }

  /** After the first n candidates. */
  ghost predicate Paired(
    cs: seq<Content>, base: seq<Stored>, persisted: seq<Pair>, unpaired: seq<Content>, pool: map<string, seq<Stored>>,
    n: nat)
    requires n <= |cs|
  {
    PoolAt(pool, cs, base, n) && persisted == Pairs(cs, base, n) && unpaired == Fresh(cs, base, n)
  }

  lemma PairedNone(cs: seq<Content>, base: seq<Stored>, pool: map<string, seq<Stored>>)
    requires PoolAt(pool, cs, base, 0)
    ensures Paired(cs, base, [], [], pool, 0)
  {
  }

  lemma PairedAll(
    cs: seq<Content>, base: seq<Stored>, persisted: seq<Pair>, unpaired: seq<Content>, pool: map<string, seq<Stored>>)
    requires Paired(cs, base, persisted, unpaired, pool, |cs|)
    ensures PoolAt(pool, cs, base, |cs|) && persisted == Pairs(cs, base, |cs|) && unpaired == Fresh(cs, base, |cs|)
  {
  }

  lemma PairedStep(
    cs: seq<Content>, base: seq<Stored>, persisted: seq<Pair>, unpaired: seq<Content>, pool: map<string, seq<Stored>>,
    n: nat)
    requires n < |cs| && Paired(cs, base, persisted, unpaired, pool, n)
    ensures var f := cs[n].fingerprint;
            var queue := Queue(pool, f);
            if queue != [] then
              Paired(cs, base, persisted + [Pair(cs[n], queue[0])], unpaired, pool[f := queue[1..]], n + 1)
            else Paired(cs, base, persisted, unpaired + [cs[n]], pool, n + 1)
  {
    PairStep(cs, base, n);
    PoolStep(pool, cs, base, n);
    QueueIsRemaining(pool, cs, base, cs[n].fingerprint, n);
    hide Pairs, Fresh, Remaining, PoolAt, Queue;
  }

  /** What is left in the queues, in the order their keys came in. */
  method Flatten(ghost candidates: seq<Content>, ghost base: seq<Stored>, pool: map<string, seq<Stored>>, order: seq<string>)
    returns (resolved: seq<Stored>)
    requires PoolAt(pool, candidates, base, |candidates|) && order == Keys(base, |base|)
    ensures resolved == Unmatched(candidates, base)
  {
    resolved := [];
    for k := 0 to |order|
      invariant resolved == Leftovers(candidates, base, order, k)
    {
      assert order[k] in pool;
      resolved := resolved + pool[order[k]];
    }
  }

  method MatchFullAgainstBase(candidates: seq<Content>, base: seq<Stored>)
    returns (persisted: seq<Pair>, unpaired: seq<Content>, resolved: seq<Stored>)
    ensures persisted == Pairs(candidates, base, |candidates|)
    ensures unpaired == Fresh(candidates, base, |candidates|)
    ensures resolved == Unmatched(candidates, base)
  {
    var pool, order := BuildPool(base);
    FullPool(pool, candidates, base);
    persisted, unpaired, pool := PairUp(candidates, base, pool);
    resolved := Flatten(candidates, base, pool, order);
  }

  // ----- what the matching is, fingerprint by fingerprint -----

  /** `p` pairs `c` and `b` in step, and `spare` is what of `c` is left over. */
  ghost predicate InStep(c: seq<Content>, b: seq<Stored>, p: seq<Pair>, spare: seq<Content>) {
    var m := Min(|c|, |b|);
    && |p| == m
    && (forall k :: 0 <= k < m ==> p[k] == Pair(c[k], b[k]))
    && spare == c[m..]
  }

  lemma InStepSnoc(c: seq<Content>, b: seq<Stored>, p: seq<Pair>, spare: seq<Content>, x: Content)
    requires InStep(c, b, p, spare)
    ensures |c| < |b| ==> InStep(c + [x], b, p + [Pair(x, b[|c|])], spare)
    ensures |c| >= |b| ==> InStep(c + [x], b, p, spare + [x])
  {
  }

  /** Pairs with fingerprint f are the first candidates and the first base findings with it, in step;
      the other candidates with it are fresh. */
  lemma {:induction false} PairsOf(cs: seq<Content>, base: seq<Stored>, f: string, n: nat)
    requires n <= |cs|
    ensures InStep(WithFp(cs, ContentFingerprint, f, n), AllWithFp(base, StoredFingerprint, f),
                   AllWithFp(Pairs(cs, base, n), PairFingerprint, f), AllWithFp(Fresh(cs, base, n), ContentFingerprint, f))
  {
    if n > 0 {
      hide *;
      PairsOf(cs, base, f, n - 1);
      PairsOfStep(cs, base, f, n - 1);
    }
  }

  lemma PairsOfStep(cs: seq<Content>, base: seq<Stored>, f: string, n: nat)
    requires n < |cs|
    requires InStep(WithFp(cs, ContentFingerprint, f, n), AllWithFp(base, StoredFingerprint, f),
                    AllWithFp(Pairs(cs, base, n), PairFingerprint, f), AllWithFp(Fresh(cs, base, n), ContentFingerprint, f))
    ensures InStep(WithFp(cs, ContentFingerprint, f, n + 1), AllWithFp(base, StoredFingerprint, f),
                   AllWithFp(Pairs(cs, base, n + 1), PairFingerprint, f),
                   AllWithFp(Fresh(cs, base, n + 1), ContentFingerprint, f))
  {
    var x := cs[n];
    var c, b := WithFp(cs, ContentFingerprint, f, n), AllWithFp(base, StoredFingerprint, f);
    PairStep(cs, base, n);
    RemainingOf(cs, base, x.fingerprint, n);
    WithFpStep(cs, ContentFingerprint, f, n);
    hide Pairs, Fresh, Remaining, InStep, WithFp, AllWithFp;
    WithFpSnoc(Fresh(cs, base, n), x, ContentFingerprint, f);
    InStepSnoc(c, b, AllWithFp(Pairs(cs, base, n), PairFingerprint, f),
               AllWithFp(Fresh(cs, base, n), ContentFingerprint, f), x);
    var left := Remaining(cs, base, x.fingerprint, n);
    if left != [] {
      WithFpSnoc(Pairs(cs, base, n), Pair(x, left[0]), PairFingerprint, f);
    }
  }

  lemma RemainingOf(cs: seq<Content>, base: seq<Stored>, f: string, n: nat)
    requires n <= |cs|
    ensures var c, b := WithFp(cs, ContentFingerprint, f, n), AllWithFp(base, StoredFingerprint, f);
            var left := Remaining(cs, base, f, n);
            (left == [] <==> |c| >= |b|) && (|c| < |b| ==> left[0] == b[|c|])
  {
  }

  lemma {:induction false} WithFpPrefix<T>(s: seq<T>, t: seq<T>, fp: T -> string, f: string, n: nat)
    requires n <= |s| && n <= |t| && s[..n] == t[..n]
    ensures WithFp(s, fp, f, n) == WithFp(t, fp, f, n)
  {
    if n > 0 {
      assert s[..n - 1] == s[..n][..n - 1] == t[..n - 1];
      assert s[n - 1] == s[..n][n - 1] == t[n - 1];
      WithFpPrefix(s, t, fp, f, n - 1);
    }
  }

  lemma WithFpSnoc<T>(s: seq<T>, x: T, fp: T -> string, f: string)
    ensures AllWithFp(s + [x], fp, f) == if fp(x) == f then AllWithFp(s, fp, f) + [x] else AllWithFp(s, fp, f)
  {
    WithFpPrefix(s, s + [x], fp, f, |s|);
  }

  lemma {:induction false} WithFpConcat<T>(s: seq<T>, t: seq<T>, fp: T -> string, f: string)
    ensures AllWithFp(s + t, fp, f) == AllWithFp(s, fp, f) + AllWithFp(t, fp, f)
  {
    if t == [] {
      assert s + t == s;
    } else {
      var t' := t[..|t| - 1];
      var x := t[|t| - 1];
      assert t == t' + [x] && s + t == (s + t') + [x];
      WithFpConcat(s, t', fp, f);
      WithFpSnoc(s + t', x, fp, f);
      WithFpSnoc(t', x, fp, f);
    }
  }

  lemma {:induction false} AllAlike<T>(s: seq<T>, fp: T -> string, f: string, n: nat)
    requires n <= |s|
    ensures (forall i :: 0 <= i < |s| ==> fp(s[i]) == f) ==> WithFp(s, fp, f, n) == s[..n]
    ensures (forall i :: 0 <= i < |s| ==> fp(s[i]) != f) ==> WithFp(s, fp, f, n) == []
  {
    if n > 0 {
      AllAlike(s, fp, f, n - 1);
    }
  }

  lemma {:induction false} KeysDistinct(base: seq<Stored>, n: nat)
    requires n <= |base|
    ensures forall i, j :: 0 <= i < j < |Keys(base, n)| ==> Keys(base, n)[i] != Keys(base, n)[j]
  {
    if n > 0 {
      KeysDistinct(base, n - 1);
    }
  }

  /** What is left of fingerprint f after the first k keys: its own leftovers, once its key has come. */
  lemma {:induction false} LeftoversOf(cs: seq<Content>, base: seq<Stored>, keys: seq<string>, f: string, k: nat)
    requires k <= |keys| && forall i, j :: 0 <= i < j < |keys| ==> keys[i] != keys[j]
    ensures AllWithFp(Leftovers(cs, base, keys, k), StoredFingerprint, f)
         == if exists j :: 0 <= j < k && keys[j] == f then Remaining(cs, base, f, |cs|) else []
  {
    if k > 0 {
      var rest := Remaining(cs, base, keys[k - 1], |cs|);
      LeftoversOf(cs, base, keys, f, k - 1);
      WithFpConcat(Leftovers(cs, base, keys, k - 1), rest, StoredFingerprint, f);
      RemainingAlike(cs, base, keys[k - 1], f);
    }
  }

  lemma RemainingAlike(cs: seq<Content>, base: seq<Stored>, key: string, f: string)
    ensures var rest := Remaining(cs, base, key, |cs|);
            AllWithFp(rest, StoredFingerprint, f) == if key == f then rest else []
  {
    var rest := Remaining(cs, base, key, |cs|);
    WithFpAlike(base, StoredFingerprint, key, |base|);
    AllAlike(rest, StoredFingerprint, f, |rest|);
    assert rest[..|rest|] == rest;
  }

  /** Full-scan matching is first-in first-out and as large as can be: of c candidates and b base
      findings with one fingerprint min(c, b) pairs persist, in step; the later candidates are fresh,
      the later base findings resolved. */
  lemma MatchingPerFingerprint(cs: seq<Content>, base: seq<Stored>, f: string)
    ensures var c := AllWithFp(cs, ContentFingerprint, f);
            var b := AllWithFp(base, StoredFingerprint, f);
            var m := Min(|c|, |b|);
            var p := AllWithFp(Pairs(cs, base, |cs|), PairFingerprint, f);
            && |p| == m
            && (forall k :: 0 <= k < m ==> p[k] == Pair(c[k], b[k]))
            && AllWithFp(Fresh(cs, base, |cs|), ContentFingerprint, f) == c[m..]
            && AllWithFp(Unmatched(cs, base), StoredFingerprint, f) == b[m..]
  {
    PairsOf(cs, base, f, |cs|);
    var keys := Keys(base, |base|);
    KeysDistinct(base, |base|);
    KeysCover(base, f, |base|);
    LeftoversOf(cs, base, keys, f, |keys|);
    assert f in keys <==> exists j :: 0 <= j < |keys| && keys[j] == f;
  }

  /** An element occurs as often among the elements with its fingerprint. */
  lemma {:induction false} Occurs<T>(s: seq<T>, x: T, fp: T -> string, n: nat)
    requires n <= |s|
    ensures multiset(WithFp(s, fp, fp(x), n))[x] == multiset(s[..n])[x]
  {
    if n > 0 {
      Occurs(s, x, fp, n - 1);
      assert s[..n] == s[..n - 1] + [s[n - 1]];
    }
  }

  lemma OccursInAll<T>(s: seq<T>, x: T, fp: T -> string)
    ensures multiset(AllWithFp(s, fp, fp(x)))[x] == multiset(s)[x]
  {
    Occurs(s, x, fp, |s|);
    assert s[..|s|] == s;
  }

  /** No fingerprint is both new and resolved. */
  lemma FreshAndUnmatchedAreApart(cs: seq<Content>, base: seq<Stored>, c: Content, b: Stored)
    requires c in Fresh(cs, base, |cs|) && b in Unmatched(cs, base)
    ensures c.fingerprint != b.content.fingerprint
  {
    if c.fingerprint == b.content.fingerprint {
      MatchingPerFingerprint(cs, base, c.fingerprint);
      OccursInAll(Fresh(cs, base, |cs|), c, ContentFingerprint);
      OccursInAll(Unmatched(cs, base), b, StoredFingerprint);
    }
  }

  function Candidates(pairs: seq<Pair>): (r: seq<Content>)
    ensures |r| == |pairs| && forall i :: 0 <= i < |r| ==> r[i] == pairs[i].candidate
  {
    seq(|pairs|, i requires 0 <= i < |pairs| => pairs[i].candidate)
  }

  function Bases(pairs: seq<Pair>): (r: seq<Stored>)
    ensures |r| == |pairs| && forall i :: 0 <= i < |r| ==> r[i] == pairs[i].base
  {
    seq(|pairs|, i requires 0 <= i < |pairs| => pairs[i].base)
  }

  lemma CandidatesSnoc(pairs: seq<Pair>, p: Pair)
    ensures Candidates(pairs + [p]) == Candidates(pairs) + [p.candidate]
  {
  }

  lemma MakeUpSnoc<T>(a: seq<T>, b: seq<T>, all: seq<T>, x: T)
    requires MakeUp(a, b, all)
    ensures MakeUp(a + [x], b, all + [x]) && MakeUp(a, b + [x], all + [x])
  {
  }

  /** The next candidate is paired with something, or is fresh. */
  ghost predicate Takes(pairs: seq<Pair>, spare: seq<Content>, x: Content, pairs': seq<Pair>, spare': seq<Content>) {
    (pairs' == pairs && spare' == spare + [x]) || (spare' == spare && exists b :: pairs' == pairs + [Pair(x, b)])
  }

  lemma PairTakes(cs: seq<Content>, base: seq<Stored>, n: nat)
    requires n < |cs|
    ensures Takes(Pairs(cs, base, n), Fresh(cs, base, n), cs[n], Pairs(cs, base, n + 1), Fresh(cs, base, n + 1))
  {
    PairStep(cs, base, n);
  }

  lemma TakeCandidate(
    pairs: seq<Pair>, spare: seq<Content>, all: seq<Content>, x: Content, pairs': seq<Pair>, spare': seq<Content>)
    requires MakeUp(Candidates(pairs), spare, all) && Takes(pairs, spare, x, pairs', spare')
    ensures MakeUp(Candidates(pairs'), spare', all + [x])
  {
    MakeUpSnoc(Candidates(pairs), spare, all, x);
    if spare' == spare {
      var b :| pairs' == pairs + [Pair(x, b)];
      CandidatesSnoc(pairs, Pair(x, b));
    }
  }

  /** Every candidate is paired or fresh, exactly once. */
  lemma {:induction false} CandidatesPartition(cs: seq<Content>, base: seq<Stored>, n: nat)
    requires n <= |cs|
    ensures MakeUp(Candidates(Pairs(cs, base, n)), Fresh(cs, base, n), cs[..n])
  {
    if n > 0 {
      hide *;
      CandidatesPartition(cs, base, n - 1);
      PairTakes(cs, base, n - 1);
      TakeCandidate(Pairs(cs, base, n - 1), Fresh(cs, base, n - 1), cs[..n - 1], cs[n - 1],
                    Pairs(cs, base, n), Fresh(cs, base, n));
      PrefixSnoc(cs, n - 1);
    }
  }

  lemma PrefixSnoc<T>(s: seq<T>, n: nat)
    requires n < |s|
    ensures s[..n + 1] == s[..n] + [s[n]]
  {
  }

  /** The bases of the pairs, by fingerprint. */
  lemma {:induction false} BasesOf(pairs: seq<Pair>, f: string, n: nat)
    requires n <= |pairs|
    requires forall i :: 0 <= i < |pairs| ==> pairs[i].base.content.fingerprint == pairs[i].candidate.fingerprint
    ensures WithFp(Bases(pairs), StoredFingerprint, f, n) == Bases(WithFp(pairs, PairFingerprint, f, n))
  {
    if n > 0 {
      BasesOf(pairs, f, n - 1);
    }
  }

  lemma {:induction false} PairsAgree(cs: seq<Content>, base: seq<Stored>, n: nat)
    requires n <= |cs|
    ensures forall p :: p in Pairs(cs, base, n) ==> p.base.content.fingerprint == p.candidate.fingerprint
    ensures forall p :: p in Pairs(cs, base, n) ==> p.base in base && p.candidate in cs
  {
    if n > 0 {
      PairsAgree(cs, base, n - 1);
      WithFpAlike(base, StoredFingerprint, cs[n - 1].fingerprint, |base|);
      WithFpFrom(base, StoredFingerprint, cs[n - 1].fingerprint, |base|);
    }
  }

  /** Every base finding is paired or resolved, exactly once. */
  lemma BasePartition(cs: seq<Content>, base: seq<Stored>)
    ensures multiset(base) == multiset(Bases(Pairs(cs, base, |cs|))) + multiset(Unmatched(cs, base))
  {
    var bases, rest := Bases(Pairs(cs, base, |cs|)), Unmatched(cs, base);
    PairsAgree(cs, base, |cs|);
    forall x: Stored
      ensures multiset(base)[x] == multiset(bases)[x] + multiset(rest)[x]
    {
      BaseCount(cs, base, x);
    }
  }

  lemma BaseCount(cs: seq<Content>, base: seq<Stored>, x: Stored)
    ensures multiset(base)[x] == multiset(Bases(Pairs(cs, base, |cs|)))[x] + multiset(Unmatched(cs, base))[x]
  {
    var f := x.content.fingerprint;
    var pairs := Pairs(cs, base, |cs|);
    PairsAgree(cs, base, |cs|);
    MatchingPerFingerprint(cs, base, f);
    BasesOf(pairs, f, |pairs|);
    OccursInAll(base, x, StoredFingerprint);
    OccursInAll(Bases(pairs), x, StoredFingerprint);
    OccursInAll(Unmatched(cs, base), x, StoredFingerprint);
    CutCounts(AllWithFp(base, StoredFingerprint, f), |AllWithFp(pairs, PairFingerprint, f)|, x);
    assert AllWithFp(Bases(pairs), StoredFingerprint, f)
        == AllWithFp(base, StoredFingerprint, f)[..|AllWithFp(pairs, PairFingerprint, f)|];
  }

  lemma CutCounts<T>(s: seq<T>, m: nat, x: T)
    requires m <= |s|
    ensures multiset(s)[x] == multiset(s[..m])[x] + multiset(s[m..])[x]
  {
    assert s == s[..m] + s[m..];
  }
}
