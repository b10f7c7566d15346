/** The stable sort the library calls provide. */
module Sorting {
  import opened Seqs

  /** `lt` compares by a key: what is not greater is ordered, totally and transitively. */
  ghost predicate IsOrder<T(!new)>(lt: (T, T) -> bool) {
    (forall a, b :: lt(a, b) ==> !lt(b, a)) && (forall a, b, c :: lt(a, c) ==> lt(a, b) || lt(b, c))
  }

  /** `x` goes behind everything it is not before. */
  function Insert<T>(s: seq<T>, x: T, lt: (T, T) -> bool): (r: seq<T>)
    ensures |r| == |s| + 1
  {
    if s != [] && lt(x, s[|s| - 1]) then Insert(s[..|s| - 1], x, lt) + [s[|s| - 1]] else s + [x]
  }

  function Sort<T>(s: seq<T>, lt: (T, T) -> bool): (r: seq<T>)
    ensures |r| == |s|
  {
    if s == [] then [] else Insert(Sort(s[..|s| - 1], lt), s[|s| - 1], lt)
  }

  ghost predicate Sorted<T>(s: seq<T>, lt: (T, T) -> bool) {
    forall i, j :: 0 <= i < j < |s| ==> !lt(s[j], s[i])
  }

  lemma {:induction false} InsertKeepsElements<T>(s: seq<T>, x: T, lt: (T, T) -> bool)
    ensures multiset(Insert(s, x, lt)) == multiset(s) + multiset{x}
  {
    if s != [] && lt(x, s[|s| - 1]) {
      InsertKeepsElements(s[..|s| - 1], x, lt);
      assert s == s[..|s| - 1] + [s[|s| - 1]];
    }
  }

  lemma {:induction false} SortKeepsElements<T>(s: seq<T>, lt: (T, T) -> bool)
    ensures SameElements(Sort(s, lt), s)
  {
    if s != [] {
      SortKeepsElements(s[..|s| - 1], lt);
      InsertKeepsElements(Sort(s[..|s| - 1], lt), s[|s| - 1], lt);
      assert s == s[..|s| - 1] + [s[|s| - 1]];
    }
  }

  lemma {:induction false} InsertKeepsSorted<T(!new)>(s: seq<T>, x: T, lt: (T, T) -> bool)
    requires IsOrder(lt) && Sorted(s, lt)
    ensures Sorted(Insert(s, x, lt), lt)
    ensures forall y :: (!lt(y, x) && forall k :: 0 <= k < |s| ==> !lt(y, s[k])) ==>
                          forall k :: 0 <= k < |Insert(s, x, lt)| ==> !lt(y, Insert(s, x, lt)[k])
  {
    if s != [] && lt(x, s[|s| - 1]) {
      var front, last := s[..|s| - 1], s[|s| - 1];
      InsertKeepsSorted(front, x, lt);
      assert forall k :: 0 <= k < |front| ==> !lt(last, front[k]);
    }
  }

  lemma {:induction false} SortSorts<T(!new)>(s: seq<T>, lt: (T, T) -> bool)
    requires IsOrder(lt)
    ensures Sorted(Sort(s, lt), lt)
  {
    if s != [] {
      SortSorts(s[..|s| - 1], lt);
      InsertKeepsSorted(Sort(s[..|s| - 1], lt), s[|s| - 1], lt);
    }
  }

  /** Neither is before the other. */
  function Ties<T>(x: T, lt: (T, T) -> bool): T -> bool {
    y => !lt(x, y) && !lt(y, x)
  }

  lemma {:induction false} InsertIsStable<T(!new)>(s: seq<T>, x: T, lt: (T, T) -> bool, z: T)
    requires IsOrder(lt)
    ensures Filter(Insert(s, x, lt), Ties(z, lt)) == Filter(s + [x], Ties(z, lt))
  {
    var p := Ties(z, lt);
    if s != [] && lt(x, s[|s| - 1]) {
      var front, last := s[..|s| - 1], s[|s| - 1];
      InsertIsStable(front, x, lt, z);
      assert s == front + [last];
      FilterSnoc(Insert(front, x, lt), last, p);
      FilterSnoc(front, x, p);
      FilterSnoc(front, last, p);
      FilterSnoc(s, x, p);
      assert !(p(x) && p(last));
    }
  }

  /** Elements that tie keep the order they had. */
  lemma {:induction false} SortIsStable<T(!new)>(s: seq<T>, lt: (T, T) -> bool, z: T)
    requires IsOrder(lt)
    ensures Filter(Sort(s, lt), Ties(z, lt)) == Filter(s, Ties(z, lt))
  {
    if s != [] {
      var front, x := s[..|s| - 1], s[|s| - 1];
      SortIsStable(front, lt, z);
      InsertIsStable(Sort(front, lt), x, lt, z);
      FilterSnoc(Sort(front, lt), x, Ties(z, lt));
    }
  }
}
