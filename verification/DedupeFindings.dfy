/** Grouping the hits of the static rules into one finding per fingerprint: src/queue/dedupe-findings.ts. */
module DedupeFindings {
  import opened Seqs
  import opened Sorting
  import DiffParser
  import RegexOpeners
  import Findings

  datatype Identity = Identity(key: string, valuePrefix: string, valueLength: nat)

  datatype Hit = Hit(
    ruleId: string,
    title: string,
    message: string,
    filePath: string,
    lineStart: nat,
    lineEnd: nat,
    snippet: Option<string>,
    identity: Option<Identity>,
    suppressedReason: Option<string>)

  datatype PreparedFinding = PreparedFinding(
    ruleId: string,
    title: string,
    message: string,
    filePath: string,
    lineStart: nat,
    lineEnd: nat,
    snippet: Option<string>,
    fingerprint: string,
    suppressedReason: Option<string>)

  // ------------------------------------------------------------------ fingerprints

  function TrimStart(s: string): string {
    if s != "" && RegexOpeners.IsRegexSpace(s[0]) then TrimStart(s[1..]) else s
  }

  function TrimEnd(s: string): string {
    if s != "" && RegexOpeners.IsRegexSpace(s[|s| - 1]) then TrimEnd(s[..|s| - 1]) else s
  }

  /** Every run of white space becomes one space; `after` says a run is open. */
  function Collapse(s: string, after: bool): string {
    if s == "" then ""
    else if RegexOpeners.IsRegexSpace(s[0]) then
      if after then Collapse(s[1..], true) else " " + Collapse(s[1..], true)
    else [s[0]] + Collapse(s[1..], false)
  }

  function IdentityKey(identity: Identity): string {
    "id:" + identity.key + ":" + identity.valuePrefix + ":" + DiffParser.Decimal(identity.valueLength)
  }

  function LineKey(line: nat): string {
    "line:" + DiffParser.Decimal(line)
  }

  predicate IsSecretRule(ruleId: string) {
    "secret." <= ruleId
  }

  function Key(hit: Hit): string {
    if hit.identity.Some? then IdentityKey(hit.identity.value)
    else if hit.snippet.None? || IsSecretRule(hit.ruleId) then LineKey(hit.lineStart)
    else Collapse(TrimEnd(TrimStart(hit.snippet.value)), false)
  }

  /** What the digest is taken of. */
  function Preimage(hit: Hit): string {
    hit.ruleId + "\0" + hit.filePath + "\0" + Key(hit)
  }

  function Fingerprint(digest: string -> string): Hit -> string {
    hit => digest(Preimage(hit))
  }

  /** Masked secrets without an identity merge only on the same line, and never with one that has an identity. */
  lemma MaskedSecretsStayApart(a: Hit, b: Hit)
    requires a.ruleId == b.ruleId && a.filePath == b.filePath
    requires IsSecretRule(a.ruleId) && a.identity.None?
    ensures Preimage(a) == Preimage(b) <==> b.identity.None? && a.lineStart == b.lineStart
  {
    var prefix := a.ruleId + "\0" + a.filePath + "\0";
    assert Preimage(a) == prefix + Key(a) && Preimage(b) == prefix + Key(b);
    assert Preimage(a)[|prefix|..] == Key(a) && Preimage(b)[|prefix|..] == Key(b);
    assert Key(a)[0] == 'l';
    if b.identity.Some? {
      assert Key(b)[0] == 'i';
    } else {
      assert LineKey(a.lineStart)[5..] == DiffParser.Decimal(a.lineStart);
      assert LineKey(b.lineStart)[5..] == DiffParser.Decimal(b.lineStart);
      DiffParser.ReadDecimal(a.lineStart);
      DiffParser.ReadDecimal(b.lineStart);
    }
  }

  // ------------------------------------------------------------------ groups

  datatype Extent = Extent(lineStart: nat, lineEnd: nat, count: nat)

  /** One group: the hit its text comes from, and what its active and its suppressed hits cover. */
  datatype Group = Group(base: Hit, active: Option<Extent>, suppressed: Option<Extent>, reason: Option<string>)

  function Widen(e: Option<Extent>, hit: Hit): Extent {
    if e.None? then Extent(hit.lineStart, hit.lineEnd, 1)
    else Extent(Min(e.value.lineStart, hit.lineStart), Max(e.value.lineEnd, hit.lineEnd), e.value.count + 1)
  }

  /** The group after one more hit of its fingerprint. */
  function AddHit(group: Option<Group>, hit: Hit): Group {
    var g := if group.Some? then group.value else Group(hit, None, None, None);
    if hit.suppressedReason.None? then
      Group(if g.active.None? then hit else g.base, Some(Widen(g.active, hit)), g.suppressed, g.reason)
    else
      Group(g.base, g.active, Some(Widen(g.suppressed, hit)),
            if g.suppressed.None? then hit.suppressedReason else g.reason)
  }

  /** The group of `f` after the first `n` hits. */
  function GroupAt(fp: Hit -> string, hits: seq<Hit>, f: string, n: nat): Option<Group>
    requires n <= |hits|
    decreases n
  {
    if n == 0 then None
    else if fp(hits[n - 1]) == f then Some(AddHit(GroupAt(fp, hits, f, n - 1), hits[n - 1]))
    else GroupAt(fp, hits, f, n - 1)
  }

  /** The fingerprints of the first `n` hits in order of first appearance. */
  function Order(fp: Hit -> string, hits: seq<Hit>, n: nat): seq<string>
    requires n <= |hits|
    decreases n
  {
    if n == 0 then []
    else
      var f := fp(hits[n - 1]);
      if GroupAt(fp, hits, f, n - 1).None? then Order(fp, hits, n - 1) + [f] else Order(fp, hits, n - 1)
  }

  function Message(base: Hit, count: nat): string {
    if count > 1 then base.message + " (muncul di " + DiffParser.Decimal(count) + " baris)" else base.message
  }

  function Prepare(g: Group, f: string): Option<PreparedFinding> {
    var kept := if g.active.Some? then g.active else g.suppressed;
    if kept.None? then None
    else Some(PreparedFinding(
      g.base.ruleId, g.base.title, Message(g.base, kept.value.count), g.base.filePath,
      kept.value.lineStart, kept.value.lineEnd, g.base.snippet, f,
      if g.active.Some? then None else g.reason))
  }

  /** The groups, and their fingerprints in the order a map iterates over them. */
  method GroupHits(fp: Hit -> string, hits: seq<Hit>) returns (groups: map<string, Group>, keys: seq<string>)
    ensures keys == Order(fp, hits, |hits|)
    ensures GroupsAt(fp, groups, hits, |hits|)
  {
    groups, keys := map[], [];
    var n := 0;
    while n < |hits|
      invariant n <= |hits| && keys == Order(fp, hits, n)
      invariant GroupsAt(fp, groups, hits, n)
    {
      var hit := hits[n];
      var fingerprint := fp(hit);
      GroupStep(fp, groups, hits, n);
      var group := Group(hit, None, None, None);
      if fingerprint in groups {
        group := groups[fingerprint];
      } else {
        keys := keys + [fingerprint];
      }
      group := Join(group, hit);
      groups := groups[fingerprint := group];
      n := n + 1;
    }
  }

  method Join(before: Group, hit: Hit) returns (group: Group)
    ensures group == AddHit(Some(before), hit)
  {
    group := before;
    if hit.suppressedReason.None? {
      if group.active.None? {
        group := group.(base := hit, active := Some(Extent(hit.lineStart, hit.lineEnd, 0)));
      }
      var e := group.active.value;
      group := group.(active := Some(Extent(Min(e.lineStart, hit.lineStart), Max(e.lineEnd, hit.lineEnd), e.count + 1)));
    } else {
      if group.suppressed.None? {
        group := group.(suppressed := Some(Extent(hit.lineStart, hit.lineEnd, 0)), reason := hit.suppressedReason);
      }
      var e := group.suppressed.value;
      group := group.(suppressed := Some(Extent(Min(e.lineStart, hit.lineStart), Max(e.lineEnd, hit.lineEnd), e.count + 1)));
    }
  }

  method DedupeFindings(digest: string -> string, hits: seq<Hit>) returns (findings: seq<PreparedFinding>)
    ensures AreFindingsOf(Fingerprint(digest), hits, findings)
  {
    ghost var fp := Fingerprint(digest);
    var groups, keys := GroupHits(Fingerprint(digest), hits);
    findings := [];
    var k := 0;
    while k < |keys|
      invariant k <= |keys| && |findings| == k
      invariant forall j :: 0 <= j < k ==> IsFindingOf(fp, hits, keys[j], findings[j])
    {
      GroupIsPrepared(fp, hits, k);
      var prepared := Prepare(groups[keys[k]], keys[k]);
      if prepared.Some? {
        findings := findings + [prepared.value];
      }
      k := k + 1;
    }
  }

  /** One finding for each fingerprint, in order of first appearance. */
  ghost predicate AreFindingsOf(fp: Hit -> string, hits: seq<Hit>, findings: seq<PreparedFinding>) {
    var keys := Order(fp, hits, |hits|);
    |findings| == |keys| && forall k :: 0 <= k < |findings| ==> IsFindingOf(fp, hits, keys[k], findings[k])
  }

  ghost predicate GroupsAt(fp: Hit -> string, groups: map<string, Group>, hits: seq<Hit>, n: nat)
    requires n <= |hits|
  {
    forall f: string :: GroupAt(fp, hits, f, n) == if f in groups then Some(groups[f]) else None
  }

  lemma GroupStep(fp: Hit -> string, groups: map<string, Group>, hits: seq<Hit>, n: nat)
    requires n < |hits| && GroupsAt(fp, groups, hits, n)
    ensures var f := fp(hits[n]);
            var group := if f in groups then Some(groups[f]) else None;
            GroupsAt(fp, groups[f := AddHit(group, hits[n])], hits, n + 1)
  {
  }

  ghost predicate IsFindingOf(fp: Hit -> string, hits: seq<Hit>, f: string, finding: PreparedFinding) {
    var group := GroupAt(fp, hits, f, |hits|);
    group.Some? && Prepare(group.value, f) == Some(finding)
  }

  lemma {:induction false} OrderIsGrouped(fp: Hit -> string, hits: seq<Hit>, n: nat, k: nat)
    requires n <= |hits| && k < |Order(fp, hits, n)|
    ensures GroupAt(fp, hits, Order(fp, hits, n)[k], n).Some?
    decreases n
  {
    if k < |Order(fp, hits, n - 1)| {
      OrderIsGrouped(fp, hits, n - 1, k);
    }
  }

  // ------------------------------------------------------------------ what a group is

  /** A hit of fingerprint `f`, active or suppressed. */
  predicate IsHitOf(fp: Hit -> string, hit: Hit, f: string, active: bool) {
    fp(hit) == f && hit.suppressedReason.None? == active
  }

  function CountOf(fp: Hit -> string, hits: seq<Hit>, f: string, active: bool, n: nat): nat
    requires n <= |hits|
    decreases n
  {
    if n == 0 then 0 else CountOf(fp, hits, f, active, n - 1) + if IsHitOf(fp, hits[n - 1], f, active) then 1 else 0
  }

  ghost predicate FirstAt(fp: Hit -> string, hits: seq<Hit>, f: string, active: bool, n: nat, i: nat)
    requires n <= |hits|
  {
    i < n && IsHitOf(fp, hits[i], f, active) && forall j :: 0 <= j < i ==> !IsHitOf(fp, hits[j], f, active)
  }

  /** No wider and no narrower than the hits it stands for. */
  ghost predicate TightHull(fp: Hit -> string, hits: seq<Hit>, f: string, active: bool, n: nat, e: Extent)
    requires n <= |hits|
  {
    && (forall i :: 0 <= i < n && IsHitOf(fp, hits[i], f, active) ==>
          e.lineStart <= hits[i].lineStart && hits[i].lineEnd <= e.lineEnd)
    && (exists i :: 0 <= i < n && IsHitOf(fp, hits[i], f, active) && hits[i].lineStart == e.lineStart)
    && (exists i :: 0 <= i < n && IsHitOf(fp, hits[i], f, active) && hits[i].lineEnd == e.lineEnd)
  }

  ghost predicate ExtentOk(fp: Hit -> string, hits: seq<Hit>, f: string, active: bool, n: nat, e: Option<Extent>)
    requires n <= |hits|
  {
    match e
    case None => CountOf(fp, hits, f, active, n) == 0
    case Some(x) => x.count == CountOf(fp, hits, f, active, n) > 0 && TightHull(fp, hits, f, active, n, x)
  }

  lemma WidenCovers(fp: Hit -> string, hits: seq<Hit>, f: string, active: bool, n: nat, e: Option<Extent>)
    requires n < |hits| && ExtentOk(fp, hits, f, active, n, e) && IsHitOf(fp, hits[n], f, active)
    ensures ExtentOk(fp, hits, f, active, n + 1, Some(Widen(e, hits[n])))
  {
    if e.None? {
      NoneCounted(fp, hits, f, active, n);
    } else {
      var i :| 0 <= i < n && IsHitOf(fp, hits[i], f, active) && hits[i].lineStart == e.value.lineStart;
      var j :| 0 <= j < n && IsHitOf(fp, hits[j], f, active) && hits[j].lineEnd == e.value.lineEnd;
      var x := Widen(e, hits[n]);
      assert x.lineStart == hits[i].lineStart || x.lineStart == hits[n].lineStart;
      assert x.lineEnd == hits[j].lineEnd || x.lineEnd == hits[n].lineEnd;
    }
  }

  lemma SkipKeeps(fp: Hit -> string, hits: seq<Hit>, f: string, active: bool, n: nat, e: Option<Extent>)
    requires n < |hits| && ExtentOk(fp, hits, f, active, n, e) && !IsHitOf(fp, hits[n], f, active)
    ensures ExtentOk(fp, hits, f, active, n + 1, e)
  {
  }

  lemma {:induction false} NoneCounted(fp: Hit -> string, hits: seq<Hit>, f: string, active: bool, n: nat)
    requires n <= |hits|
    ensures CountOf(fp, hits, f, active, n) == 0 <==> forall i :: 0 <= i < n ==> !IsHitOf(fp, hits[i], f, active)
    decreases n
  {
    if n > 0 {
      NoneCounted(fp, hits, f, active, n - 1);
      if CountOf(fp, hits, f, active, n) != 0 && CountOf(fp, hits, f, active, n - 1) == 0 {
        assert IsHitOf(fp, hits[n - 1], f, active);
      }
    }
  }

  /** The hit a group takes its text, or its reason, from. */
  ghost predicate IsFirst(fp: Hit -> string, hits: seq<Hit>, f: string, active: bool, n: nat, hit: Hit)
    requires n <= |hits|
  {
    exists i: nat :: FirstAt(fp, hits, f, active, n, i) && hits[i] == hit
  }

  lemma FirstStays(fp: Hit -> string, hits: seq<Hit>, f: string, active: bool, n: nat, hit: Hit)
    requires n < |hits| && IsFirst(fp, hits, f, active, n, hit)
    ensures IsFirst(fp, hits, f, active, n + 1, hit)
  {
    var i: nat :| FirstAt(fp, hits, f, active, n, i) && hits[i] == hit;
    assert FirstAt(fp, hits, f, active, n + 1, i);
  }

  lemma FirstIsNow(fp: Hit -> string, hits: seq<Hit>, f: string, active: bool, n: nat)
    requires n < |hits| && IsHitOf(fp, hits[n], f, active) && CountOf(fp, hits, f, active, n) == 0
    ensures IsFirst(fp, hits, f, active, n + 1, hits[n])
  {
    NoneCounted(fp, hits, f, active, n);
    assert FirstAt(fp, hits, f, active, n + 1, n);
  }

  ghost predicate ExtentsOk(fp: Hit -> string, hits: seq<Hit>, f: string, n: nat, group: Option<Group>)
    requires n <= |hits|
  {
    ExtentOk(fp, hits, f, true, n, if group.Some? then group.value.active else None) &&
    ExtentOk(fp, hits, f, false, n, if group.Some? then group.value.suppressed else None) &&
    (group.Some? ==> group.value.active.Some? || group.value.suppressed.Some?)
  }

  ghost predicate TextOk(fp: Hit -> string, hits: seq<Hit>, f: string, n: nat, group: Option<Group>)
    requires n <= |hits|
  {
    group.Some? ==>
      IsFirst(fp, hits, f, group.value.active.Some?, n, group.value.base) &&
      (group.value.suppressed.Some? ==> ReasonOk(fp, hits, f, n, group.value))
  }

  /** The reason is that of the first suppressed hit, which is the base when no hit is active. */
  ghost predicate ReasonOk(fp: Hit -> string, hits: seq<Hit>, f: string, n: nat, group: Group)
    requires n <= |hits|
  {
    (exists i: nat :: FirstAt(fp, hits, f, false, n, i) && hits[i].suppressedReason == group.reason) &&
    (group.active.None? ==> group.base.suppressedReason == group.reason)
  }

  lemma {:induction false} ExtentsAreExact(fp: Hit -> string, hits: seq<Hit>, f: string, n: nat)
    requires n <= |hits|
    ensures ExtentsOk(fp, hits, f, n, GroupAt(fp, hits, f, n))
    decreases n
  {
    if n > 0 {
      ExtentsAreExact(fp, hits, f, n - 1);
      var before := GroupAt(fp, hits, f, n - 1);
      var hit := hits[n - 1];
      forall active: bool
        ensures var e := if before.None? then None else if active then before.value.active else before.value.suppressed;
                ExtentOk(fp, hits, f, active, n, if IsHitOf(fp, hit, f, active) then Some(Widen(e, hit)) else e)
      {
        var e := if before.None? then None else if active then before.value.active else before.value.suppressed;
        if IsHitOf(fp, hit, f, active) {
          WidenCovers(fp, hits, f, active, n - 1, e);
        } else {
          SkipKeeps(fp, hits, f, active, n - 1, e);
        }
      }
    }
  }

  /** No group is empty: each gives a finding. */
  lemma GroupIsPrepared(fp: Hit -> string, hits: seq<Hit>, k: nat)
    requires k < |Order(fp, hits, |hits|)|
    ensures var f := Order(fp, hits, |hits|)[k];
            var group := GroupAt(fp, hits, f, |hits|);
            group.Some? && Prepare(group.value, f).Some?
  {
    OrderIsGrouped(fp, hits, |hits|, k);
    ExtentsAreExact(fp, hits, Order(fp, hits, |hits|)[k], |hits|);
  }

  lemma {:induction false} TextIsExact(fp: Hit -> string, hits: seq<Hit>, f: string, n: nat)
    requires n <= |hits|
    ensures TextOk(fp, hits, f, n, GroupAt(fp, hits, f, n))
    decreases n
  {
    if n > 0 {
      TextIsExact(fp, hits, f, n - 1);
      ExtentsAreExact(fp, hits, f, n - 1);
      var before := GroupAt(fp, hits, f, n - 1);
      var hit := hits[n - 1];
      if before.Some? {
        FirstStays(fp, hits, f, before.value.active.Some?, n - 1, before.value.base);
        if before.value.suppressed.Some? {
          ReasonStays(fp, hits, f, n - 1, before.value);
        }
      }
      if fp(hit) == f {
        TextStep(fp, hits, f, n - 1, before);
      }
    }
  }

  lemma ReasonStays(fp: Hit -> string, hits: seq<Hit>, f: string, n: nat, group: Group)
    requires n < |hits| && ReasonOk(fp, hits, f, n, group)
    ensures ReasonOk(fp, hits, f, n + 1, group)
  {
    var i: nat :| FirstAt(fp, hits, f, false, n, i) && hits[i].suppressedReason == group.reason;
    assert FirstAt(fp, hits, f, false, n + 1, i);
  }

  lemma TextStep(fp: Hit -> string, hits: seq<Hit>, f: string, n: nat, before: Option<Group>)
    requires n < |hits| && fp(hits[n]) == f
    requires ExtentsOk(fp, hits, f, n, before) && TextOk(fp, hits, f, n + 1, before)
    ensures TextOk(fp, hits, f, n + 1, Some(AddHit(before, hits[n])))
  {
    var hit := hits[n];
    var active := hit.suppressedReason.None?;
    if CountOf(fp, hits, f, active, n) == 0 {
      FirstIsNow(fp, hits, f, active, n);
      if !active {
        ReasonIsNow(fp, hits, f, n, AddHit(before, hit));
      }
    }
  }

  lemma ReasonIsNow(fp: Hit -> string, hits: seq<Hit>, f: string, n: nat, group: Group)
    requires n < |hits| && IsFirst(fp, hits, f, false, n + 1, hits[n]) && CountOf(fp, hits, f, false, n) == 0
    requires group.reason == hits[n].suppressedReason
    requires group.active.None? ==> group.base == hits[n]
    ensures ReasonOk(fp, hits, f, n + 1, group)
  {
    var i: nat :| FirstAt(fp, hits, f, false, n + 1, i) && hits[i] == hits[n];
  }

  /**
   * A finding is active exactly when some hit of its fingerprint is. Its range is the
   * tight hull of the hits of that kind, its message counts them, and the rest of it,
   * the reason included, is that of the first of them.
   */
  ghost predicate Exact(fp: Hit -> string, hits: seq<Hit>, finding: PreparedFinding) {
    var f, n, active := finding.fingerprint, |hits|, finding.suppressedReason.None?;
    && (active <==> exists i :: 0 <= i < n && IsHitOf(fp, hits[i], f, true))
    && TightHull(fp, hits, f, active, n, Extent(finding.lineStart, finding.lineEnd, CountOf(fp, hits, f, active, n)))
    && exists first :: IsFirst(fp, hits, f, active, n, first) && SaysSame(finding, first, CountOf(fp, hits, f, active, n))
  }

  predicate SaysSame(finding: PreparedFinding, hit: Hit, count: nat) {
    finding.ruleId == hit.ruleId && finding.title == hit.title && finding.filePath == hit.filePath &&
    finding.snippet == hit.snippet && finding.suppressedReason == hit.suppressedReason &&
    finding.message == Message(hit, count)
  }

  lemma FindingIsExact(fp: Hit -> string, hits: seq<Hit>, f: string, finding: PreparedFinding)
    requires IsFindingOf(fp, hits, f, finding)
    ensures finding.fingerprint == f && Exact(fp, hits, finding)
  {
    var n := |hits|;
    ExtentsAreExact(fp, hits, f, n);
    TextIsExact(fp, hits, f, n);
    NoneCounted(fp, hits, f, true, n);
    var g := GroupAt(fp, hits, f, n).value;
    assert SaysSame(finding, g.base, CountOf(fp, hits, f, g.active.Some?, n)) by {
      var i: nat :| FirstAt(fp, hits, f, g.active.Some?, n, i) && hits[i] == g.base;
    }
    var kept := if g.active.Some? then g.active.value else g.suppressed.value;
    HullOnly(fp, hits, f, g.active.Some?, n, kept);
  }

  lemma HullOnly(fp: Hit -> string, hits: seq<Hit>, f: string, active: bool, n: nat, e: Extent)
    requires n <= |hits| && TightHull(fp, hits, f, active, n, e)
    ensures forall count: nat :: TightHull(fp, hits, f, active, n, Extent(e.lineStart, e.lineEnd, count))
  {
  }

  // ------------------------------------------------------------------ one per fingerprint

  lemma {:induction false} OrderListsEach(fp: Hit -> string, hits: seq<Hit>, f: string, n: nat)
    requires n <= |hits|
    ensures multiset(Order(fp, hits, n))[f] == if GroupAt(fp, hits, f, n).Some? then 1 else 0
    decreases n
  {
    if n > 0 {
      OrderListsEach(fp, hits, f, n - 1);
    }
  }

  lemma {:induction false} GroupWhenHit(fp: Hit -> string, hits: seq<Hit>, f: string, n: nat)
    requires n <= |hits|
    ensures GroupAt(fp, hits, f, n).Some? <==> exists i :: 0 <= i < n && fp(hits[i]) == f
    decreases n
  {
    if n > 0 {
      GroupWhenHit(fp, hits, f, n - 1);
      if fp(hits[n - 1]) == f {
        assert 0 <= n - 1 < n && fp(hits[n - 1]) == f;
      }
    }
  }

  function FindingFingerprint(finding: PreparedFinding): string {
    finding.fingerprint
  }

  /** No fingerprint is lost, none is listed twice, and every finding is exact. */
  lemma OneFindingPerFingerprint(fp: Hit -> string, hits: seq<Hit>, findings: seq<PreparedFinding>)
    requires AreFindingsOf(fp, hits, findings)
    ensures Distinct(MapSeq(FindingFingerprint, findings))
    ensures forall i :: 0 <= i < |hits| ==> fp(hits[i]) in MapSeq(FindingFingerprint, findings)
    ensures forall k :: 0 <= k < |findings| ==> Exact(fp, hits, findings[k])
  {
    var keys := Order(fp, hits, |hits|);
    forall k | 0 <= k < |findings|
      ensures findings[k].fingerprint == keys[k] && Exact(fp, hits, findings[k])
    {
      FindingIsExact(fp, hits, keys[k], findings[k]);
    }
    assert MapSeq(FindingFingerprint, findings) == keys;
    forall f: string
      ensures multiset(keys)[f] <= 1
    {
      OrderListsEach(fp, hits, f, |hits|);
    }
    forall i | 0 <= i < |hits|
      ensures fp(hits[i]) in keys
    {
      OrderListsEach(fp, hits, fp(hits[i]), |hits|);
      GroupWhenHit(fp, hits, fp(hits[i]), |hits|);
    }
  }

  // ------------------------------------------------------------------ the order of the hits

  function Is(fp: Hit -> string, f: string, active: bool): Hit -> bool {
    hit => IsHitOf(fp, hit, f, active)
  }

  lemma {:induction false} CountIsMultiplicity(fp: Hit -> string, hits: seq<Hit>, f: string, active: bool, n: nat)
    requires n <= |hits|
    ensures CountOf(fp, hits, f, active, n) == multiset(MapSeq(Is(fp, f, active), hits[..n]))[true]
    decreases n
  {
    if n > 0 {
      CountIsMultiplicity(fp, hits, f, active, n - 1);
      var p := Is(fp, f, active);
      assert hits[..n] == hits[..n - 1] + [hits[n - 1]];
      MapConcat(p, hits[..n - 1], [hits[n - 1]]);
      assert MapSeq(p, [hits[n - 1]]) == [p(hits[n - 1])];
    }
  }

  lemma CountIgnoresOrder(fp: Hit -> string, hits: seq<Hit>, hits': seq<Hit>, f: string, active: bool)
    requires SameElements(hits, hits')
    ensures CountOf(fp, hits, f, active, |hits|) == CountOf(fp, hits', f, active, |hits'|)
  {
    CountIsMultiplicity(fp, hits, f, active, |hits|);
    CountIsMultiplicity(fp, hits', f, active, |hits'|);
    assert hits[..|hits|] == hits && hits'[..|hits'|] == hits';
    MapSameElements(Is(fp, f, active), hits, hits');
  }

  lemma SameMembers(hits: seq<Hit>, hits': seq<Hit>, i: nat)
    requires SameElements(hits, hits') && i < |hits|
    ensures exists j :: 0 <= j < |hits'| && hits'[j] == hits[i]
  {
    assert hits[i] in multiset(hits');
  }

  lemma HullIgnoresOrder(
    fp: Hit -> string, hits: seq<Hit>, hits': seq<Hit>, f: string, active: bool, e: Extent, e': Extent)
    requires SameElements(hits, hits')
    requires TightHull(fp, hits, f, active, |hits|, e) && TightHull(fp, hits', f, active, |hits'|, e')
    ensures e'.lineStart <= e.lineStart && e.lineEnd <= e'.lineEnd
  {
    var i :| 0 <= i < |hits| && IsHitOf(fp, hits[i], f, active) && hits[i].lineStart == e.lineStart;
    SameMembers(hits, hits', i);
    var j :| 0 <= j < |hits| && IsHitOf(fp, hits[j], f, active) && hits[j].lineEnd == e.lineEnd;
    SameMembers(hits, hits', j);
  }

  /** Fingerprint, active or not, range and count do not depend on the order of the hits. */
  lemma HitOrderDoesNotMatter(
    fp: Hit -> string, hits: seq<Hit>, hits': seq<Hit>, findings: seq<PreparedFinding>, findings': seq<PreparedFinding>,
    k: nat)
    requires SameElements(hits, hits') && k < |findings|
    requires AreFindingsOf(fp, hits, findings) && AreFindingsOf(fp, hits', findings')
    ensures exists j :: 0 <= j < |findings'| && SameOutcome(fp, hits, hits', findings[k], findings'[j])
  {
    var f := Order(fp, hits, |hits|)[k];
    var finding := findings[k];
    FindingIsExact(fp, hits, f, finding);
    OrderIsGrouped(fp, hits, |hits|, k);
    GroupWhenHit(fp, hits, f, |hits|);
    var i :| 0 <= i < |hits| && fp(hits[i]) == f;
    SameMembers(hits, hits', i);
    GroupWhenHit(fp, hits', f, |hits'|);
    OrderListsEach(fp, hits', f, |hits'|);
    assert f in Order(fp, hits', |hits'|);
    var j :| 0 <= j < |findings'| && Order(fp, hits', |hits'|)[j] == f;
    FindingIsExact(fp, hits', f, findings'[j]);
    OutcomeIgnoresOrder(fp, hits, hits', finding, findings'[j]);
  }

  predicate SameOutcome(
    fp: Hit -> string, hits: seq<Hit>, hits': seq<Hit>, a: PreparedFinding, b: PreparedFinding)
  {
    a.fingerprint == b.fingerprint && a.suppressedReason.None? == b.suppressedReason.None? &&
    a.lineStart == b.lineStart && a.lineEnd == b.lineEnd &&
    CountOf(fp, hits, a.fingerprint, a.suppressedReason.None?, |hits|) ==
    CountOf(fp, hits', a.fingerprint, a.suppressedReason.None?, |hits'|)
  }

  lemma OutcomeIgnoresOrder(
    fp: Hit -> string, hits: seq<Hit>, hits': seq<Hit>, a: PreparedFinding, b: PreparedFinding)
    requires SameElements(hits, hits') && a.fingerprint == b.fingerprint
    requires Exact(fp, hits, a) && Exact(fp, hits', b)
    ensures SameOutcome(fp, hits, hits', a, b)
  {
    var f := a.fingerprint;
    CountIgnoresOrder(fp, hits, hits', f, true);
    CountIgnoresOrder(fp, hits, hits', f, false);
    NoneCounted(fp, hits, f, true, |hits|);
    NoneCounted(fp, hits', f, true, |hits'|);
    var active := a.suppressedReason.None?;
    var e := Extent(a.lineStart, a.lineEnd, CountOf(fp, hits, f, active, |hits|));
    var e' := Extent(b.lineStart, b.lineEnd, CountOf(fp, hits', f, active, |hits'|));
    HullIgnoresOrder(fp, hits, hits', f, active, e, e');
    HullIgnoresOrder(fp, hits', hits, f, active, e', e);
  }

  // ------------------------------------------------------------------ as candidates of a scan

  /** A static finding as the lifecycle takes it; every rule of this release is critical. */
  function AsCandidate(category: string -> Option<string>): PreparedFinding -> Findings.Content {
    (f: PreparedFinding) => Findings.Content(
      Findings.Static, f.ruleId, Findings.Critical, f.title, f.message, f.filePath, f.lineStart, f.lineEnd, f.snippet,
      f.fingerprint, f.suppressedReason, category(f.ruleId), None, None, None)
  }

  predicate IsActive(f: PreparedFinding) {
    f.suppressedReason.None?
  }

  predicate IsSuppressed(f: PreparedFinding) {
    f.suppressedReason.Some?
  }

  const MAX_ACTIVE_FINDINGS := 500
  const MAX_SUPPRESSED_FINDINGS := 200

  function Cap<T>(s: seq<T>, n: nat): (r: seq<T>)
    ensures r <= s
  {
    if |s| <= n then s else s[..n]
  }

  /** The active findings by location, then the suppressed ones, either list cut short when too long.
      `before` compares locations. */
  function Reported(
    findings: seq<PreparedFinding>, before: (PreparedFinding, PreparedFinding) -> bool): seq<PreparedFinding>
  {
    Cap(Sort(Filter(findings, IsActive), before), MAX_ACTIVE_FINDINGS) +
    Cap(Sort(Filter(findings, IsSuppressed), before), MAX_SUPPRESSED_FINDINGS)
  }

  /** Each of them is a candidate, and no two candidates have the same fingerprint. */
  lemma CandidatesAreDistinct(
    fp: Hit -> string, hits: seq<Hit>, findings: seq<PreparedFinding>,
    before: (PreparedFinding, PreparedFinding) -> bool, category: string -> Option<string>)
    requires AreFindingsOf(fp, hits, findings)
    ensures Distinct(MapSeq(Findings.ContentFingerprint, MapSeq(AsCandidate(category), Reported(findings, before))))
  {
    OneFindingPerFingerprint(fp, hits, findings);
    ReportedDistinct(findings, before);
    assert MapSeq(Findings.ContentFingerprint, MapSeq(AsCandidate(category), Reported(findings, before))) ==
           MapSeq(FindingFingerprint, Reported(findings, before));
  }

  lemma ReportedDistinct(findings: seq<PreparedFinding>, before: (PreparedFinding, PreparedFinding) -> bool)
    requires Distinct(MapSeq(FindingFingerprint, findings))
    ensures Distinct(MapSeq(FindingFingerprint, Reported(findings, before)))
  {
    var active, suppressed := Filter(findings, IsActive), Filter(findings, IsSuppressed);
    FilterSplits(findings, IsActive, IsSuppressed);
    SortKeepsElements(active, before);
    SortKeepsElements(suppressed, before);
    var a, b := Sort(active, before), Sort(suppressed, before);
    var m, n := |Cap(a, MAX_ACTIVE_FINDINGS)|, |Cap(b, MAX_SUPPRESSED_FINDINGS)|;
    assert Cap(a, MAX_ACTIVE_FINDINGS) == a[..m] && Cap(b, MAX_SUPPRESSED_FINDINGS) == b[..n];
    PartsDistinct(findings, a, m, b, n);
  }

  lemma PartsDistinct(findings: seq<PreparedFinding>, a: seq<PreparedFinding>, m: nat, b: seq<PreparedFinding>, n: nat)
    requires m <= |a| && n <= |b| && multiset(findings) == multiset(a) + multiset(b)
    requires Distinct(MapSeq(FindingFingerprint, findings))
    ensures Distinct(MapSeq(FindingFingerprint, a[..m] + b[..n]))
  {
    var kept, cut := a[..m] + b[..n], a[m..] + b[n..];
    PartsMakeUp(a, m, b, n);
    SplitMaps(FindingFingerprint, findings, kept, cut);
    DistinctPart(MapSeq(FindingFingerprint, kept), MapSeq(FindingFingerprint, cut), MapSeq(FindingFingerprint, findings));
  }

  lemma PartsMakeUp<T>(a: seq<T>, m: nat, b: seq<T>, n: nat)
    requires m <= |a| && n <= |b|
    ensures multiset(a) + multiset(b) == multiset(a[..m] + b[..n]) + multiset(a[m..] + b[n..])
  {
    assert a == a[..m] + a[m..] && b == b[..n] + b[n..];
  }
}
