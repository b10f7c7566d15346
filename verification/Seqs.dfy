/** Optional values and the few functions, mostly on sequences, that the other modules share. */
module Seqs {

  datatype Option<+T> = None | Some(value: T) {
    predicate IsFailure() {
      None?
    }

    function PropagateFailure<U>(): Option<U>
      requires None?
    {
      None
    }

    function Extract(): T
      requires Some?
    {
      value
    }
  }

  function Min(a: int, b: int): int { if a <= b then a else b }

  function Max(a: int, b: int): int { if a >= b then a else b }

  /** The elements of `s` that satisfy `p`, in order. */
  function Filter<T>(s: seq<T>, p: T -> bool): (r: seq<T>)
    ensures |r| <= |s|
  {
    if s == [] then []
    else
      if p(s[|s| - 1]) then Filter(s[..|s| - 1], p) + [s[|s| - 1]] else Filter(s[..|s| - 1], p)
  }

  lemma {:induction false} FilterMembers<T(!new)>(s: seq<T>, p: T -> bool)
    ensures forall x :: x in Filter(s, p) <==> x in s && p(x)
  {
    if s != [] {
      FilterMembers(s[..|s| - 1], p);
      assert s == s[..|s| - 1] + [s[|s| - 1]];
    }
  }

  lemma FilterSnoc<T>(s: seq<T>, x: T, p: T -> bool)
    ensures Filter(s + [x], p) == if p(x) then Filter(s, p) + [x] else Filter(s, p)
  {
    assert (s + [x])[..|s|] == s;
  }

  lemma {:induction false} FilterConcat<T>(s: seq<T>, t: seq<T>, p: T -> bool)
    ensures Filter(s + t, p) == Filter(s, p) + Filter(t, p)
  {
    if t == [] {
      assert s + t == s;
    } else {
      var t' := t[..|t| - 1];
      assert s + t == (s + t') + [t[|t| - 1]];
      FilterSnoc(s + t', t[|t| - 1], p);
      FilterConcat(s, t', p);
    }
  }

  /** `s` splits, as a multiset, into what satisfies `p` and what does not. */
  lemma {:induction false} FilterSplits<T(!new)>(s: seq<T>, p: T -> bool, q: T -> bool)
    requires forall x :: q(x) == !p(x)
    ensures multiset(s) == multiset(Filter(s, p)) + multiset(Filter(s, q))
  {
    if s != [] {
      FilterSplits(s[..|s| - 1], p, q);
      assert s == s[..|s| - 1] + [s[|s| - 1]];
    }
  }

  /** Pairwise distinct: nothing occurs twice. */
  ghost predicate Distinct<T(!new)>(s: seq<T>) {
    forall x :: multiset(s)[x] <= 1
  }

  function MapSeq<A, B>(f: A -> B, s: seq<A>): (r: seq<B>)
    ensures |r| == |s|
    ensures forall i :: 0 <= i < |s| ==> r[i] == f(s[i])
  {
    seq(|s|, i requires 0 <= i < |s| => f(s[i]))
  }

  lemma MapConcat<A, B>(f: A -> B, s: seq<A>, t: seq<A>)
    ensures MapSeq(f, s + t) == MapSeq(f, s) + MapSeq(f, t)
  {
  }

  lemma MapFilterSnoc<A, B>(f: A -> B, s: seq<A>, x: A, p: A -> bool)
    ensures MapSeq(f, Filter(s + [x], p)) ==
            if p(x) then MapSeq(f, Filter(s, p)) + [f(x)] else MapSeq(f, Filter(s, p))
  {
    FilterSnoc(s, x, p);
  }

  /** Two sequences with the same elements, as often, in any order. */
  ghost predicate SameElements<T>(s: seq<T>, t: seq<T>) {
    multiset(s) == multiset(t)
  }

  lemma SameElementsConcat<T>(s: seq<T>, t: seq<T>, s': seq<T>, t': seq<T>)
    requires SameElements(s, s') && SameElements(t, t')
    ensures SameElements(s + t, s' + t')
  {
  }

  /** Taking an element off both sides. */
  lemma SameElementsRemove<T>(s: seq<T>, x: T, t: seq<T>, k: nat)
    requires k < |t| && t[k] == x && SameElements(s + [x], t)
    ensures SameElements(s, t[..k] + t[k + 1..])
  {
    assert t == t[..k] + [x] + t[k + 1..];
    assert multiset(s) == multiset(s + [x]) - multiset{x};
    assert multiset(t[..k] + t[k + 1..]) == multiset(t) - multiset{x};
  }

  lemma {:induction false} MapSameElements<A, B>(f: A -> B, s: seq<A>, t: seq<A>)
    requires SameElements(s, t)
    ensures SameElements(MapSeq(f, s), MapSeq(f, t))
    decreases |s|
  {
    if s == [] {
      assert |multiset(t)| == |t|;
    } else {
      var front, x := s[..|s| - 1], s[|s| - 1];
      assert s == front + [x];
      assert x in multiset(t);
      var k :| 0 <= k < |t| && t[k] == x;
      var t' := t[..k] + t[k + 1..];
      SameElementsRemove(front, x, t, k);
      MapSameElements(f, front, t');
      MapInsert(f, t, k);
      MapConcat(f, front, [x]);
      assert MapSeq(f, [x]) == [f(x)];
    }
  }

  lemma MapInsert<A, B>(f: A -> B, t: seq<A>, k: nat)
    requires k < |t|
    ensures multiset(MapSeq(f, t)) == multiset(MapSeq(f, t[..k] + t[k + 1..])) + multiset{f(t[k])}
  {
    var m := MapSeq(f, t);
    assert m == m[..k] + [f(t[k])] + m[k + 1..];
    assert MapSeq(f, t[..k] + t[k + 1..]) == m[..k] + m[k + 1..];
  }

  lemma SplitMaps<A, B>(f: A -> B, all: seq<A>, s: seq<A>, t: seq<A>)
    requires multiset(all) == multiset(s) + multiset(t)
    ensures SameElements(MapSeq(f, s) + MapSeq(f, t), MapSeq(f, all))
  {
    MapConcat(f, s, t);
    assert SameElements(s + t, all);
    MapSameElements(f, s + t, all);
  }

  lemma {:induction false} CountOf<A, B>(f: A -> B, s: seq<A>, x: A)
    requires x in s
    ensures multiset(MapSeq(f, s))[f(x)] >= 1
  {
    var k :| 0 <= k < |s| && s[k] == x;
    assert MapSeq(f, s)[k] == f(x);
    assert f(x) in multiset(MapSeq(f, s));
  }

  lemma DistinctPart<T(!new)>(s: seq<T>, t: seq<T>, all: seq<T>)
    requires SameElements(s + t, all) && Distinct(all)
    ensures Distinct(s)
  {
    forall x
      ensures multiset(s)[x] <= 1
    {
      assert multiset(s + t)[x] == multiset(s)[x] + multiset(t)[x];
      assert multiset(all)[x] <= 1;
    }
  }

  lemma DistinctConcat<T(!new)>(s: seq<T>, t: seq<T>)
    requires Distinct(s) && Distinct(t) && forall x :: x in s ==> x !in t
    ensures Distinct(s + t)
  {
    forall x
      ensures multiset(s + t)[x] <= 1
    {
      assert multiset(s + t)[x] == multiset(s)[x] + multiset(t)[x];
      assert x in s <==> x in multiset(s);
      assert x in t <==> x in multiset(t);
    }
  }

  /** What a filter keeps of a sequence with distinct images has distinct images. */
  lemma FilterDistinct<A(!new), B(!new)>(f: A -> B, s: seq<A>, p: A -> bool, q: A -> bool)
    requires Distinct(MapSeq(f, s)) && forall x :: q(x) == !p(x)
    ensures Distinct(MapSeq(f, Filter(s, p)))
  {
    FilterSplits(s, p, q);
    SplitMaps(f, s, Filter(s, p), Filter(s, q));
    DistinctPart(MapSeq(f, Filter(s, p)), MapSeq(f, Filter(s, q)), MapSeq(f, s));
  }

  lemma {:induction false} ApartAreDistinct<T(!new)>(s: seq<T>)
    requires forall i, j :: 0 <= i < j < |s| ==> s[i] != s[j]
    ensures Distinct(s)
    decreases |s|
  {
    if s != [] {
      var front, last := s[..|s| - 1], s[|s| - 1];
      ApartAreDistinct(front);
      assert s == front + [last];
      assert last !in front;
      assert last !in multiset(front);
    }
  }
}
