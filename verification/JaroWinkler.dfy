/** Title similarity: src/common/text/jaro-winkler.ts, over the reals. */
module JaroWinkler {
  import opened Seqs

  // ----- matchings of equal characters within a window -----

  type Pairs = set<(int, int)>

  function Window(n: nat, m: nat): nat {
    Max(0, Max(n, m) / 2 - 1)
  }

  predicate Pairable<T(==)>(a: seq<T>, b: seq<T>, w: nat, i: int, j: int) {
    0 <= i < |a| && 0 <= j < |b| && i - w <= j <= i + w && a[i] == b[j]
  }

  ghost predicate Matching<T>(m: Pairs, a: seq<T>, b: seq<T>, w: nat) {
    && (forall p :: p in m ==> Pairable(a, b, w, p.0, p.1))
    && (forall p, q :: p in m && q in m && (p.0 == q.0 || p.1 == q.1) ==> p == q)
  }

  ghost predicate Free<T>(m: Pairs, a: seq<T>, b: seq<T>, w: nat, i: int, j: int) {
    Pairable(a, b, w, i, j) && forall p :: p in m ==> p.1 != j
  }

  /** The first free partner of a[i] at or after j; |b| if there is none. */
  ghost function FirstFree<T>(m: Pairs, a: seq<T>, b: seq<T>, w: nat, i: int, j: nat): (r: nat)
    requires j <= |b|
    ensures j <= r <= |b|
    ensures r < |b| ==> Free(m, a, b, w, i, r)
    ensures forall k :: j <= k < r ==> !Free(m, a, b, w, i, k)
    decreases |b| - j
  {
    if j == |b| || Free(m, a, b, w, i, j) then j else FirstFree(m, a, b, w, i, j + 1)
  }

  /** What greedy left-to-right matching has paired after the first n characters of a. */
  ghost function Greedy<T>(a: seq<T>, b: seq<T>, w: nat, n: nat): Pairs
    requires n <= |a|
  {
    if n == 0 then {}
    else
      var before := Greedy(a, b, w, n - 1);
      var j := FirstFree(before, a, b, w, n - 1, 0);
      if j < |b| then before + {(n - 1, j)} else before
  }

  lemma {:induction false} GreedyIsMatching<T>(a: seq<T>, b: seq<T>, w: nat, n: nat)
    requires n <= |a|
    ensures Matching(Greedy(a, b, w, n), a, b, w)
    ensures forall p :: p in Greedy(a, b, w, n) ==> p.0 < n
  {
    if n > 0 {
      GreedyIsMatching(a, b, w, n - 1);
    }
  }

  ghost function Matches<T>(a: seq<T>, b: seq<T>): Pairs {
    Greedy(a, b, Window(|a|, |b|), |a|)
  }

  /** m contains g, and below n nothing else. */
  ghost predicate Extends(m: Pairs, g: Pairs, n: int) {
    g <= m && forall p :: p in m && p.0 < n ==> p in g
  }

  /** One exchange: a matching that agrees with the greedy one so far can be made, without
      losing pairs, to agree one character further. */
  lemma Exchange<T>(a: seq<T>, b: seq<T>, w: nat, n: nat, m: Pairs) returns (m': Pairs)
    requires n < |a| && Matching(m, a, b, w) && Extends(m, Greedy(a, b, w, n), n)
    ensures Matching(m', a, b, w) && |m'| >= |m| && Extends(m', Greedy(a, b, w, n + 1), n + 1)
  {
    var g := Greedy(a, b, w, n);
    var j := FirstFree(g, a, b, w, n, 0);
    GreedyIsMatching(a, b, w, n);
    if j == |b| {
      forall p | p in m
        ensures p.0 != n
      {
        assert p.0 == n ==> Free(g, a, b, w, n, p.1);
      }
      m' := m;
    } else if (n, j) in m {
      m' := m;
    } else {
      m' := TakePair(a, b, w, n, j, g, m);
    }
  }

  /** Pair (n, j), whatever n or j were paired with before. */
  lemma TakePair<T>(a: seq<T>, b: seq<T>, w: nat, n: nat, j: nat, g: Pairs, m: Pairs) returns (m': Pairs)
    requires n < |a| && j < |b| && Matching(m, a, b, w) && Extends(m, g, n) && (n, j) !in m
    requires Free(g, a, b, w, n, j) && forall k :: 0 <= k < j ==> !Free(g, a, b, w, n, k)
    requires forall p :: p in g ==> p.0 < n
    ensures Matching(m', a, b, w) && |m'| >= |m| && Extends(m', g + {(n, j)}, n + 1)
  {
    if i2 :| (i2, j) in m {
      assert i2 > n;
      if j2 :| (n, j2) in m {
        assert Free(g, a, b, w, n, j2);
        m' := Cross(a, b, w, n, j, i2, j2, g, m);
      } else {
        m' := Replace(a, b, w, n, j, {(i2, j)}, g, m);
      }
    } else if j2 :| (n, j2) in m {
      m' := Replace(a, b, w, n, j, {(n, j2)}, g, m);
    } else {
      m' := Replace(a, b, w, n, j, {}, g, m);
    }
  }

  /** At most one pair is in the way: it makes room for (n, j). */
  lemma Replace<T>(a: seq<T>, b: seq<T>, w: nat, n: nat, j: nat, x: Pairs, g: Pairs, m: Pairs) returns (m': Pairs)
    requires n < |a| && j < |b| && Matching(m, a, b, w) && Extends(m, g, n) && (n, j) !in m
    requires Pairable(a, b, w, n, j) && x <= m && |x| <= 1
    requires forall p :: p in m ==> (p in x <==> p.0 == n || p.1 == j)
    requires forall p :: p in x ==> p.0 >= n
    requires forall p :: p in g ==> p.0 < n
    ensures Matching(m', a, b, w) && |m'| >= |m| && Extends(m', g + {(n, j)}, n + 1)
  {
    m' := m - x + {(n, j)};
    assert |m - x| == |m| - |x|;
  }

  /** Both n and j are paired: swap the partners. As j is the first free one, j2 comes after it. */
  lemma Cross<T>(a: seq<T>, b: seq<T>, w: nat, n: nat, j: nat, i2: int, j2: int, g: Pairs, m: Pairs) returns (m': Pairs)
    requires n < |a| && j < |b| && Matching(m, a, b, w) && Extends(m, g, n)
    requires Pairable(a, b, w, n, j) && (i2, j) in m && (n, j2) in m && n < i2 && j < j2
    requires forall p :: p in g ==> p.0 < n
    ensures Matching(m', a, b, w) && |m'| >= |m| && Extends(m', g + {(n, j)}, n + 1)
  {
    m' := m - {(n, j2)} - {(i2, j)} + {(n, j)} + {(i2, j2)};
    SwapTwo(m, (n, j2), (i2, j), (n, j), (i2, j2));
    CrossMatches(a, b, w, n, j, i2, j2, m);
    CrossExtends(n, j, i2, j2, g, m);
    hide Matching, Extends, Pairable;
  }

  lemma CrossMatches<T>(a: seq<T>, b: seq<T>, w: nat, n: nat, j: nat, i2: int, j2: int, m: Pairs)
    requires Matching(m, a, b, w) && Pairable(a, b, w, n, j) && (i2, j) in m && (n, j2) in m && n < i2 && j < j2
    ensures Matching(m - {(n, j2)} - {(i2, j)} + {(n, j)} + {(i2, j2)}, a, b, w)
  {
    var rest := m - {(n, j2)} - {(i2, j)};
    assert forall p :: p in rest ==> p.0 != n && p.0 != i2 && p.1 != j && p.1 != j2;
    assert Pairable(a, b, w, i2, j2);
  }

  lemma CrossExtends(n: nat, j: nat, i2: int, j2: int, g: Pairs, m: Pairs)
    requires Extends(m, g, n) && n < i2 && forall p :: p in g ==> p.0 < n
    requires forall p :: p in m && p.0 == n ==> p == (n, j2)
    ensures Extends(m - {(n, j2)} - {(i2, j)} + {(n, j)} + {(i2, j2)}, g + {(n, j)}, n + 1)
  {
  }

  lemma SwapTwo(m: Pairs, p: (int, int), q: (int, int), r: (int, int), s: (int, int))
    requires p in m && q in m && p != q && r != s && r !in m - {p} - {q} && s !in m - {p} - {q}
    ensures |m - {p} - {q} + {r} + {s}| == |m|
  {
    assert |m - {p} - {q}| == |m| - 2;
  }

  lemma {:induction false} GreedyReaches<T>(a: seq<T>, b: seq<T>, w: nat, n: nat, m: Pairs) returns (m': Pairs)
    requires n <= |a| && Matching(m, a, b, w)
    ensures Matching(m', a, b, w) && |m'| >= |m| && Extends(m', Greedy(a, b, w, n), n)
    decreases n
  {
    if n == 0 {
      m' := m;
    } else {
      m' := GreedyReaches(a, b, w, n - 1, m);
      m' := Exchange(a, b, w, n - 1, m');
    }
  }

  /** Greedy left-to-right matching finds a largest matching within the window. */
  lemma GreedyIsMaximum<T>(a: seq<T>, b: seq<T>, w: nat, m: Pairs)
    requires Matching(m, a, b, w)
    ensures |m| <= |Greedy(a, b, w, |a|)|
  {
    var m' := GreedyReaches(a, b, w, |a|, m);
    GreedyIsMatching(a, b, w, |a|);
    assert m' == Greedy(a, b, w, |a|);
  }

  ghost function Swap(m: Pairs): (r: Pairs)
    ensures forall i, j :: (i, j) in r <==> (j, i) in m
  {
    set p | p in m :: (p.1, p.0)
  }

  lemma {:induction false} SwapSize(m: Pairs)
    ensures |Swap(m)| == |m|
  {
    if m == {} {
      assert Swap(m) == {};
    } else {
      var p :| p in m;
      SwapSize(m - {p});
      assert Swap(m) == Swap(m - {p}) + {(p.1, p.0)};
    }
  }

  lemma MatchesAtMost<T>(a: seq<T>, b: seq<T>)
    ensures |Matches(a, b)| <= |Matches(b, a)|
  {
    SwapSize(Matches(a, b));
    GreedyIsMatching(a, b, Window(|a|, |b|), |a|);
    GreedyIsMaximum(b, a, Window(|b|, |a|), Swap(Matches(a, b)));
  }

  /** The number of matching characters does not depend on which string comes first. */
  lemma MatchCountIsSymmetric<T>(a: seq<T>, b: seq<T>)
    ensures |Matches(a, b)| == |Matches(b, a)|
  {
    MatchesAtMost(a, b);
    MatchesAtMost(b, a);
  }

  // ----- marks -----

  ghost predicate MarkedA(m: Pairs, i: int) {
    exists p :: p in m && p.0 == i
  }

  ghost predicate MarkedB(m: Pairs, j: int) {
    exists p :: p in m && p.1 == j
  }

  ghost function MarksA(m: Pairs, n: nat): (r: seq<bool>)
    ensures |r| == n && forall i :: 0 <= i < n ==> r[i] == MarkedA(m, i)
  {
    seq(n, i => MarkedA(m, i))
  }

  ghost function MarksB(m: Pairs, n: nat): (r: seq<bool>)
    ensures |r| == n && forall j :: 0 <= j < n ==> r[j] == MarkedB(m, j)
  {
    seq(n, j => MarkedB(m, j))
  }

  /** The first n elements of s that carry a mark, in order. */
  function Marked<T>(s: seq<T>, marks: seq<bool>, n: nat): (r: seq<T>)
    requires |marks| == |s| && n <= |s|
    ensures |r| <= n
  {
    if n == 0 then []
    else if marks[n - 1] then Marked(s, marks, n - 1) + [s[n - 1]]
    else Marked(s, marks, n - 1)
  }

  lemma {:induction false} MarkOne<T>(s: seq<T>, marks: seq<bool>, i: nat, n: nat)
    requires |marks| == |s| && i < |s| && n <= |s| && !marks[i]
    ensures |Marked(s, marks[i := true], n)| == |Marked(s, marks, n)| + if i < n then 1 else 0
  {
    if n > 0 {
      MarkOne(s, marks, i, n - 1);
    }
  }

  lemma {:induction false} NoMarks<T>(s: seq<T>, marks: seq<bool>, n: nat)
    requires |marks| == |s| && n <= |s| && forall i :: 0 <= i < |s| ==> !marks[i]
    ensures Marked(s, marks, n) == []
  {
    if n > 0 {
      NoMarks(s, marks, n - 1);
    }
  }

  lemma {:induction false} AllMarks<T>(s: seq<T>, marks: seq<bool>, n: nat)
    requires |marks| == |s| && n <= |s|
    ensures |Marked(s, marks, n)| == n ==> Marked(s, marks, n) == s[..n]
  {
    if n > 0 {
      AllMarks(s, marks, n - 1);
    }
  }

  lemma {:induction false} MarkedGrows<T>(s: seq<T>, marks: seq<bool>, i: nat, n: nat)
    requires |marks| == |s| && i <= n <= |s|
    ensures |Marked(s, marks, i)| <= |Marked(s, marks, n)|
    ensures |Marked(s, marks, i)| == |Marked(s, marks, n)| ==> Marked(s, marks, i) == Marked(s, marks, n)
    decreases n
  {
    if i < n {
      MarkedGrows(s, marks, i, n - 1);
    }
  }

  /** A pair whose ends are both unmarked adds one mark to each side. */
  lemma {:induction false} MarkPair<T>(a: seq<T>, b: seq<T>, m: Pairs, i: nat, j: nat, m': Pairs)
    requires i < |a| && j < |b| && m' == m + {(i, j)}
    requires forall p :: p in m ==> p.0 != i && p.1 != j
    ensures |m'| == |m| + 1
    ensures MarksA(m', |a|) == MarksA(m, |a|)[i := true]
    ensures MarksB(m', |b|) == MarksB(m, |b|)[j := true]
    ensures |Marked(a, MarksA(m', |a|), |a|)| == |Marked(a, MarksA(m, |a|), |a|)| + 1
    ensures |Marked(b, MarksB(m', |b|), |b|)| == |Marked(b, MarksB(m, |b|), |b|)| + 1
  {
    assert (i, j) in m' && (i, j) !in m;
    MarkOne(a, MarksA(m, |a|), i, |a|);
    MarkOne(b, MarksB(m, |b|), j, |b|);
  }

  lemma {:induction false} GreedyStep<T>(a: seq<T>, b: seq<T>, w: nat, n: nat)
    requires n < |a|
    ensures var g := Greedy(a, b, w, n);
            var j := FirstFree(g, a, b, w, n, 0);
            Greedy(a, b, w, n + 1) == if j < |b| then g + {(n, j)} else g
  {
  }

  /** Each side carries exactly one mark per pair. */
  ghost predicate Balanced<T>(a: seq<T>, b: seq<T>, m: Pairs) {
    |Marked(a, MarksA(m, |a|), |a|)| == |m| == |Marked(b, MarksB(m, |b|), |b|)|
  }

  lemma MarkPairBalances<T>(a: seq<T>, b: seq<T>, m: Pairs, i: nat, j: nat)
    requires i < |a| && j < |b| && Balanced(a, b, m)
    requires forall p :: p in m ==> p.0 != i && p.1 != j
    ensures Balanced(a, b, m + {(i, j)})
  {
    MarkPair(a, b, m, i, j, m + {(i, j)});
  }

  lemma NothingIsBalanced<T>(a: seq<T>, b: seq<T>)
    ensures Balanced(a, b, {})
  {
    NoMarks(a, MarksA({}, |a|), |a|);
    NoMarks(b, MarksB({}, |b|), |b|);
  }

  lemma FreePartner<T>(a: seq<T>, b: seq<T>, w: nat, n: nat)
    requires n < |a|
    ensures var g := Greedy(a, b, w, n);
            var j := FirstFree(g, a, b, w, n, 0);
            j < |b| ==> forall p :: p in g ==> p.0 != n && p.1 != j
  {
    GreedyIsMatching(a, b, w, n);
  }

  lemma {:induction false} OneMarkPerPair<T>(a: seq<T>, b: seq<T>, w: nat, n: nat)
    requires n <= |a|
    ensures Balanced(a, b, Greedy(a, b, w, n))
    decreases n
  {
    if n == 0 {
      NothingIsBalanced(a, b);
    } else {
      hide Balanced;
      OneMarkPerPair(a, b, w, n - 1);
      GreedyStep(a, b, w, n - 1);
      FreePartner(a, b, w, n - 1);
      var g := Greedy(a, b, w, n - 1);
      var j := FirstFree(g, a, b, w, n - 1, 0);
      if j < |b| {
        MarkPairBalances(a, b, g, n - 1, j);
      }
    }
  }

  // ----- the scores -----

  /** In how many places two strings of equal length differ. */
  function Differences<T(==)>(x: seq<T>, y: seq<T>): (r: nat)
    requires |x| == |y|
    ensures r <= |x|
    ensures r == 0 <==> x == y
  {
    if x == [] then 0
    else
      var n := |x| - 1;
      assert x == x[..n] + [x[n]] && y == y[..n] + [y[n]];
      Differences(x[..n], y[..n]) + if x[n] == y[n] then 0 else 1
  }

  lemma DifferencesSnoc<T>(x: seq<T>, u: T, y: seq<T>, v: T)
    requires |x| == |y|
    ensures Differences(x + [u], y + [v]) == Differences(x, y) + if u == v then 0 else 1
  {
    assert (x + [u])[..|x|] == x && (y + [v])[..|y|] == y;
  }

  /** Matched characters of a and b, each in its own order. */
  ghost function MatchedA<T>(a: seq<T>, b: seq<T>): seq<T> {
    Marked(a, MarksA(Matches(a, b), |a|), |a|)
  }

  ghost function MatchedB<T>(a: seq<T>, b: seq<T>): (r: seq<T>)
    ensures |r| == |MatchedA(a, b)| == |Matches(a, b)|
  {
    OneMarkPerPair(a, b, Window(|a|, |b|), |a|);
    Marked(b, MarksB(Matches(a, b), |b|), |b|)
  }

  function Ratio(m: nat, n: nat, k: nat, t: nat): real
    requires m > 0 && n > 0 && k > 0
  {
    (m as real / n as real + m as real / k as real + (m as real - t as real / 2.0) / m as real) / 3.0
  }

  ghost function Jaro<T>(a: seq<T>, b: seq<T>): real {
    if a == b then 1.0
    else if |a| == 0 || |b| == 0 then 0.0
    else
      var m := |Matches(a, b)|;
      if m == 0 then 0.0
      else Ratio(m, |a|, |b|, Differences(MatchedA(a, b), MatchedB(a, b)))
  }

  const PREFIX_SCALE := 0.1
  const MAX_PREFIX := 4

  /** Where the shared prefix ends, at most MAX_PREFIX characters in, given that it reaches k. */
  function PrefixFrom<T(==)>(a: seq<T>, b: seq<T>, k: nat): (r: nat)
    ensures k <= MAX_PREFIX && k <= |a| && k <= |b| ==> k <= r <= MAX_PREFIX && r <= |a| && r <= |b|
    ensures forall i :: k <= i < r && i < |a| && i < |b| ==> a[i] == b[i]
    ensures r < MAX_PREFIX && r < |a| && r < |b| ==> a[r] != b[r]
    decreases MAX_PREFIX - k
  {
    if k < MAX_PREFIX && k < |a| && k < |b| && a[k] == b[k] then PrefixFrom(a, b, k + 1) else k
  }

  function SharedPrefix<T(==)>(a: seq<T>, b: seq<T>): nat {
    PrefixFrom(a, b, 0)
  }

  function WithPrefix(similarity: real, prefix: nat): real {
    similarity + prefix as real * PREFIX_SCALE * (1.0 - similarity)
  }

  ghost function Score<T>(a: seq<T>, b: seq<T>): real {
    WithPrefix(Jaro(a, b), SharedPrefix(a, b))
  }

  lemma RatioBounds(m: nat, n: nat, k: nat, t: nat)
    requires 0 < m <= n && m <= k && t <= m
    ensures 0.0 < Ratio(m, n, k, t) <= 1.0
    ensures Ratio(m, n, k, t) == 1.0 <==> m == n == k && t == 0
  {
    var x := m as real / n as real;
    var y := m as real / k as real;
    var z := (m as real - t as real / 2.0) / m as real;
    QuotientBounds(m as real, n as real);
    QuotientBounds(m as real, k as real);
    QuotientBounds(m as real - t as real / 2.0, m as real);
  }

  lemma QuotientBounds(p: real, q: real)
    requires 0.0 < p <= q
    ensures 0.0 < p / q <= 1.0
    ensures p / q == 1.0 <==> p == q
  {
  }

  /** Both scores lie between 0 and 1, the prefix only adds, and either is 1 exactly for equal strings. */
  lemma ScoreBounds<T>(a: seq<T>, b: seq<T>)
    ensures 0.0 <= Jaro(a, b) <= Score(a, b) <= 1.0
    ensures Jaro(a, b) == 1.0 <==> a == b
    ensures Score(a, b) == 1.0 <==> a == b
  {
    hide Jaro, WithPrefix;
    JaroBounds(a, b);
    WithPrefixBounds(Jaro(a, b), SharedPrefix(a, b));
  }

  lemma WithPrefixBounds(s: real, prefix: nat)
    requires 0.0 <= s <= 1.0 && prefix <= MAX_PREFIX
    ensures s <= WithPrefix(s, prefix) <= 1.0
    ensures WithPrefix(s, prefix) == 1.0 <==> s == 1.0
  {
    var p := prefix as real * PREFIX_SCALE;
    assert 0.0 <= p <= 0.4;
    PrefixBonus(s, p, 1.0 - s);
  }

  lemma PrefixBonus(s: real, p: real, d: real)
    requires 0.0 <= s <= 1.0 && 0.0 <= p <= 0.4 && d == 1.0 - s
    ensures s <= s + p * d <= 1.0
    ensures s + p * d == 1.0 <==> s == 1.0
  {
    Scale(p, 0.4, d);
  }

  lemma Scale(p: real, q: real, d: real)
    requires 0.0 <= p <= q && d >= 0.0
    ensures 0.0 <= p * d <= q * d
  {
  }

  lemma JaroBounds<T>(a: seq<T>, b: seq<T>)
    ensures 0.0 <= Jaro(a, b) <= 1.0
    ensures Jaro(a, b) == 1.0 <==> a == b
  {
    if a != b && a != [] && b != [] && |Matches(a, b)| > 0 {
      var x, y := MatchedA(a, b), MatchedB(a, b);
      RatioBounds(|Matches(a, b)|, |a|, |b|, Differences(x, y));
      AllMarks(a, MarksA(Matches(a, b), |a|), |a|);
      AllMarks(b, MarksB(Matches(a, b), |b|), |b|);
      assert a[..|a|] == a && b[..|b|] == b;
    }
  }

  // ----- the loops -----

  /** The inner loop: the first unmatched partner of a[i] in its window, |b| if there is none. */
  method FindPartner<T(==)>(a: seq<T>, b: seq<T>, window: nat, i: nat, bMatched: array<bool>, ghost g: Pairs)
    returns (j: nat)
    requires i < |a| && bMatched.Length == |b|
    requires bMatched[..] == MarksB(g, |b|)
    ensures j == FirstFree(g, a, b, window, i, 0)
  {
    var from := Max(0, i - window);
    var to := Min(|b| - 1, i + window);
    j := from;
    while j <= to
      invariant from <= j
      invariant forall k :: 0 <= k < j && k < |b| ==> !Free(g, a, b, window, i, k)
    {
      assert bMatched[..][j] == MarkedB(g, j);
      if !bMatched[j] && a[i] == b[j] {
        assert Free(g, a, b, window, i, j);
        return;
      }
      j := j + 1;
    }
    j := |b|;
  }

  /** First loop: pair the characters, greedily and from the left. */
  method MatchWithin<T(==)>(a: seq<T>, b: seq<T>, window: nat, aMatched: array<bool>, bMatched: array<bool>)
    returns (matches: nat)
    requires aMatched != bMatched && aMatched.Length == |a| && bMatched.Length == |b|
    requires forall i :: 0 <= i < |a| ==> !aMatched[i]
    requires forall j :: 0 <= j < |b| ==> !bMatched[j]
    modifies aMatched, bMatched
    ensures aMatched[..] == MarksA(Greedy(a, b, window, |a|), |a|)
    ensures bMatched[..] == MarksB(Greedy(a, b, window, |a|), |b|)
    ensures matches == |Greedy(a, b, window, |a|)|
  {
    matches := 0;
    ghost var g: Pairs := {};
    for i := 0 to |a|
      invariant g == Greedy(a, b, window, i)
      invariant Marking(aMatched[..], bMatched[..], g)
      invariant matches == |g|
    {
      GreedyStep(a, b, window, i);
      GreedyBelow(a, b, window, i);
      var j := FindPartner(a, b, window, i, bMatched, g);
      if j < |b| {
        MarkEnds(aMatched[..], bMatched[..], g, i, j);
        aMatched[i] := true;
        bMatched[j] := true;
        matches := matches + 1;
        g := g + {(i, j)};
      }
    }
  }

  ghost predicate Marking(aMatched: seq<bool>, bMatched: seq<bool>, m: Pairs) {
    aMatched == MarksA(m, |aMatched|) && bMatched == MarksB(m, |bMatched|)
  }

  lemma {:induction false} GreedyBelow<T>(a: seq<T>, b: seq<T>, w: nat, n: nat)
    requires n <= |a|
    ensures forall p :: p in Greedy(a, b, w, n) ==> p.0 < n
  {
    GreedyIsMatching(a, b, w, n);
  }

  lemma MarkEnds(aMatched: seq<bool>, bMatched: seq<bool>, m: Pairs, i: nat, j: nat)
    requires i < |aMatched| && j < |bMatched| && Marking(aMatched, bMatched, m)
    requires forall p :: p in m ==> p.0 < i
    ensures Marking(aMatched[i := true], bMatched[j := true], m + {(i, j)})
    ensures |m + {(i, j)}| == |m| + 1
  {
    var m' := m + {(i, j)};
    assert (i, j) in m';
    forall k
      ensures MarkedA(m', k) <==> MarkedA(m, k) || k == i
      ensures MarkedB(m', k) <==> MarkedB(m, k) || k == j
    {
      if MarkedA(m, k) { var p :| p in m && p.0 == k; assert p in m'; }
      if MarkedB(m, k) { var p :| p in m && p.1 == k; assert p in m'; }
    }
  }

  lemma MarkedStep<T>(s: seq<T>, marks: seq<bool>, i: nat)
    requires |marks| == |s| && i < |s|
    ensures Marked(s, marks, i + 1) == if marks[i] then Marked(s, marks, i) + [s[i]] else Marked(s, marks, i)
  {
  }

  lemma SomeMarkLeft<T>(s: seq<T>, marks: seq<bool>, k: nat)
    requires |marks| == |s| && k <= |s|
    ensures |Marked(s, marks, k)| < |Marked(s, marks, |s|)| ==> k < |s|
  {
  }

  /** The next marked place; the caller knows there is one, so the pointer stays inside. */
  method NextMark<T>(s: seq<T>, marks: seq<bool>, k0: nat) returns (k: nat)
    requires |marks| == |s| && k0 <= |s| && |Marked(s, marks, k0)| < |Marked(s, marks, |s|)|
    ensures k0 <= k < |s| && marks[k] && Marked(s, marks, k) == Marked(s, marks, k0)
  {
    k := k0;
    hide Marked;
    SomeMarkLeft(s, marks, k);
    while !marks[k]
      invariant k0 <= k < |s| && Marked(s, marks, k) == Marked(s, marks, k0)
      decreases |s| - k
    {
      MarkedStep(s, marks, k);
      k := k + 1;
      SomeMarkLeft(s, marks, k);
    }
  }

  /** Two equally long strings differ in `t` places. */
  ghost predicate Compared<T>(x: seq<T>, y: seq<T>, t: nat) {
    |x| == |y| && t == Differences(x, y)
  }

  lemma ComparedSnoc<T>(x: seq<T>, u: T, y: seq<T>, v: T, t: nat)
    requires Compared(x, y, t)
    ensures Compared(x + [u], y + [v], if u != v then t + 1 else t)
  {
    DifferencesSnoc(x, u, y, v);
  }

  /** With as many marks on either side, a mark of `a` has its counterpart in `b`. */
  lemma CounterpartLeft<T>(a: seq<T>, aMatched: seq<bool>, i: nat, b: seq<T>, bMatched: seq<bool>, k: nat, t: nat)
    requires |aMatched| == |a| && |bMatched| == |b| && i < |a| && k <= |b| && aMatched[i]
    requires |Marked(a, aMatched, |a|)| == |Marked(b, bMatched, |b|)|
    requires Compared(Marked(a, aMatched, i), Marked(b, bMatched, k), t)
    ensures |Marked(b, bMatched, k)| < |Marked(b, bMatched, |b|)|
  {
    MarkedStep(a, aMatched, i);
    MarkedGrows(a, aMatched, i + 1, |a|);
  }

  lemma AllCompared<T>(a: seq<T>, aMatched: seq<bool>, b: seq<T>, bMatched: seq<bool>, k: nat, t: nat)
    requires |aMatched| == |a| && |bMatched| == |b| && k <= |b|
    requires |Marked(a, aMatched, |a|)| == |Marked(b, bMatched, |b|)|
    requires Compared(Marked(a, aMatched, |a|), Marked(b, bMatched, k), t)
    ensures t == Differences(Marked(a, aMatched, |a|), Marked(b, bMatched, |b|))
  {
    MarkedGrows(b, bMatched, k, |b|);
  }

  /** Second loop: walk the marks of both sides together. The pointer k never runs off: as long as
      a has a mark left, so has b. */
  method CountTranspositions<T(==)>(a: seq<T>, b: seq<T>, aMatched: seq<bool>, bMatched: seq<bool>)
    returns (transpositions: nat)
    requires |aMatched| == |a| && |bMatched| == |b|
    requires |Marked(a, aMatched, |a|)| == |Marked(b, bMatched, |b|)|
    ensures transpositions == Differences(Marked(a, aMatched, |a|), Marked(b, bMatched, |b|))
  {
    transpositions := 0;
    var k := 0;
    assert Compared(Marked(a, aMatched, 0), Marked(b, bMatched, 0), 0);
    hide Marked, Differences, Compared;
    for i := 0 to |a|
      invariant 0 <= k <= |b| && Compared(Marked(a, aMatched, i), Marked(b, bMatched, k), transpositions)
    {
      MarkedStep(a, aMatched, i);
      if !aMatched[i] {
        continue;
      }
      CounterpartLeft(a, aMatched, i, b, bMatched, k, transpositions);
      k := NextMark(b, bMatched, k);
      MarkedStep(b, bMatched, k);
      ComparedSnoc(Marked(a, aMatched, i), a[i], Marked(b, bMatched, k), b[k], transpositions);
      if a[i] != b[k] {
        transpositions := transpositions + 1;
      }
      k := k + 1;
    }
    AllCompared(a, aMatched, b, bMatched, k, transpositions);
  }

  method ComputeJaro<T(==)>(a: seq<T>, b: seq<T>) returns (r: real)
    ensures r == Jaro(a, b)
  {
    if a == b {
      return 1.0;
    }
    if |a| == 0 || |b| == 0 {
      return 0.0;
    }
    var window := Max(0, Max(|a|, |b|) / 2 - 1);
    var aMatched := new bool[|a|](_ => false);
    var bMatched := new bool[|b|](_ => false);
    var matches := MatchWithin(a, b, window, aMatched, bMatched);
    if matches == 0 {
      return 0.0;
    }
    OneMarkPerPair(a, b, window, |a|);
    var transpositions := CountTranspositions(a, b, aMatched[..], bMatched[..]);
    return Ratio(matches, |a|, |b|, transpositions);
  }

  method ComputeJaroWinkler<T(==)>(a: seq<T>, b: seq<T>) returns (r: real)
    ensures r == Score(a, b)
  {
    var similarity := ComputeJaro(a, b);
    var prefix := 0;
    while prefix < Min(MAX_PREFIX, Min(|a|, |b|)) && a[prefix] == b[prefix]
      invariant 0 <= prefix <= MAX_PREFIX && prefix <= |a| && prefix <= |b|
      invariant SharedPrefix(a, b) == PrefixFrom(a, b, prefix)
    {
      prefix := prefix + 1;
    }
    return WithPrefix(similarity, prefix);
  }
}
