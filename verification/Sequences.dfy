/** Lists: filtering, mapping, flattening, and what these do to the elements counted with their repetitions. */
module Sequences {
  import opened Wrappers

  function Map<A, B>(f: A -> B, s: seq<A>): (t: seq<B>)
    ensures |t| == |s| && forall i :: 0 <= i < |s| ==> t[i] == f(s[i])
  {
    seq(|s|, i requires 0 <= i < |s| => f(s[i]))
  }

  function Filter<A>(keep: A -> bool, s: seq<A>): seq<A> {
    if s == [] then []
    else Filter(keep, s[..|s| - 1]) + if keep(s[|s| - 1]) then [s[|s| - 1]] else []
  }

  function FlatMap<A, B>(f: A -> seq<B>, s: seq<A>): seq<B> {
    if s == [] then [] else FlatMap(f, s[..|s| - 1]) + f(s[|s| - 1])
  }

  predicate NoRepeat<A(==)>(s: seq<A>) {
    forall i, j :: 0 <= i < j < |s| ==> s[i] != s[j]
  }

  lemma Snoc<A>(s: seq<A>)
    requires s != []
    ensures s == s[..|s| - 1] + [s[|s| - 1]] && multiset(s) == multiset(s[..|s| - 1]) + multiset{s[|s| - 1]}
  {
    assert s == s[..|s| - 1] + [s[|s| - 1]];
  }

  lemma {:induction false} FilterCounts<A>(keep: A -> bool, s: seq<A>, x: A)
    ensures multiset(Filter(keep, s))[x] == if keep(x) then multiset(s)[x] else 0
  {
    if s != [] {
      Snoc(s);
      FilterCounts(keep, s[..|s| - 1], x);
    }
  }

  lemma {:induction false} FilterAppend<A>(keep: A -> bool, a: seq<A>, b: seq<A>)
    ensures Filter(keep, a + b) == Filter(keep, a) + Filter(keep, b)
  {
    if b == [] {
      assert a + b == a;
    } else {
      assert (a + b)[..|a + b| - 1] == a + b[..|b| - 1];
      FilterAppend(keep, a, b[..|b| - 1]);
    }
  }

  lemma {:induction false} FilterAll<A>(keep: A -> bool, s: seq<A>)
    requires forall i :: 0 <= i < |s| ==> keep(s[i])
    ensures Filter(keep, s) == s
  {
    if s != [] {
      FilterAll(keep, s[..|s| - 1]);
    }
  }

  lemma {:induction false} FilterNone<A>(keep: A -> bool, s: seq<A>)
    requires forall i :: 0 <= i < |s| ==> !keep(s[i])
    ensures Filter(keep, s) == []
  {
    if s != [] {
      FilterNone(keep, s[..|s| - 1]);
    }
  }

  lemma {:induction false} FilterCongruent<A(!new)>(keep: A -> bool, other: A -> bool, s: seq<A>)
    requires forall i :: 0 <= i < |s| ==> keep(s[i]) == other(s[i])
    ensures Filter(keep, s) == Filter(other, s)
  {
    if s != [] {
      FilterCongruent(keep, other, s[..|s| - 1]);
    }
  }

  lemma FilterMember<A>(keep: A -> bool, s: seq<A>, x: A)
    ensures x in Filter(keep, s) <==> x in s && keep(x)
  {
    FilterCounts(keep, s, x);
    assert x in s <==> x in multiset(s);
    assert x in Filter(keep, s) <==> x in multiset(Filter(keep, s));
  }

  /** What a filter keeps stands in the order in which it stood. */
  lemma {:induction false} FilterOrder<A>(keep: A -> bool, s: seq<A>, i: nat, j: nat) returns (p: nat, q: nat)
    requires i < j < |Filter(keep, s)|
    ensures p < q < |s| && s[p] == Filter(keep, s)[i] && s[q] == Filter(keep, s)[j]
  {
    var init := s[..|s| - 1];
    if j < |Filter(keep, init)| {
      p, q := FilterOrder(keep, init, i, j);
    } else {
      FilterMember(keep, init, Filter(keep, init)[i]);
      p :| 0 <= p < |init| && init[p] == Filter(keep, init)[i];
      q := |init|;
    }
  }

  /** Elements kept in order with distinct names stay distinct. */
  lemma {:induction false} FilterDistinct<A(!new), B>(keep: A -> bool, name: A -> B, s: seq<A>)
    requires NoRepeat(Map(name, s))
    ensures NoRepeat(Map(name, Filter(keep, s)))
  {
    if s != [] {
      var init, last := s[..|s| - 1], s[|s| - 1];
      assert forall i :: 0 <= i < |init| ==> Map(name, init)[i] == Map(name, s)[i];
      FilterDistinct(keep, name, init);
      var kept := Filter(keep, init);
      forall i | 0 <= i < |kept|
        ensures name(kept[i]) != name(last)
      {
        FilterMember(keep, init, kept[i]);
        var j :| 0 <= j < |init| && init[j] == kept[i];
        assert Map(name, s)[j] != Map(name, s)[|s| - 1];
      }
    }
  }

  lemma MapAppends<A, B>(f: A -> B, a: seq<A>, b: seq<A>)
    ensures Map(f, a + b) == Map(f, a) + Map(f, b)
  {
  }

  lemma {:induction false} FlatMapAppend<A, B>(f: A -> seq<B>, a: seq<A>, b: seq<A>)
    ensures FlatMap(f, a + b) == FlatMap(f, a) + FlatMap(f, b)
  {
    if b == [] {
      assert a + b == a;
    } else {
      assert (a + b)[..|a + b| - 1] == a + b[..|b| - 1];
      FlatMapAppend(f, a, b[..|b| - 1]);
    }
  }

  lemma FilterLast<A>(keep: A -> bool, init: seq<A>, last: A)
    ensures Filter(keep, init + [last]) == if keep(last) then Filter(keep, init) + [last] else Filter(keep, init)
  {
    assert (init + [last])[..|init|] == init;
  }

  lemma FlatMapLast<A, B>(f: A -> seq<B>, init: seq<A>, last: A)
    ensures FlatMap(f, init + [last]) == FlatMap(f, init) + f(last)
  {
    assert (init + [last])[..|init|] == init;
  }

  function Not<A>(keep: A -> bool): A -> bool {
    x => !keep(x)
  }

  /** What is kept and what is not give together what the whole list gives. */
  lemma {:induction false} FlatMapSplit<A, B>(f: A -> seq<B>, keep: A -> bool, s: seq<A>)
    ensures multiset(FlatMap(f, s)) ==
            multiset(FlatMap(f, Filter(keep, s))) + multiset(FlatMap(f, Filter(Not(keep), s)))
  {
    if s != [] {
      var init, last := s[..|s| - 1], s[|s| - 1];
      FlatMapSplit(f, keep, init);
      Snoc(s);
      FilterLast(keep, init, last);
      FilterLast(Not(keep), init, last);
      FlatMapLast(f, init, last);
      if keep(last) {
        FlatMapLast(f, Filter(keep, init), last);
      } else {
        FlatMapLast(f, Filter(Not(keep), init), last);
      }
    }
  }

  lemma Middle<A>(a: seq<A>, b: seq<A>, c: seq<A>)
    ensures multiset(a + b + c) == multiset(a + c) + multiset(b)
  {
  }

  lemma FlatMapAround<A, B>(f: A -> seq<B>, a: seq<A>, x: A, c: seq<A>)
    ensures multiset(FlatMap(f, a + [x] + c)) == multiset(FlatMap(f, a + c)) + multiset(f(x))
  {
    FlatMapLast(f, a, x);
    FlatMapAppend(f, a + [x], c);
    FlatMapAppend(f, a, c);
    Middle(FlatMap(f, a), f(x), FlatMap(f, c));
  }

  lemma Around<A>(t: seq<A>, x: A) returns (a: seq<A>, c: seq<A>)
    requires x in t
    ensures t == a + [x] + c
  {
    var at :| 0 <= at < |t| && t[at] == x;
    a, c := t[..at], t[at + 1..];
  }

  /** Take one occurrence of `x` out. */
  lemma TakeOut<A, B>(f: A -> seq<B>, t: seq<A>, x: A) returns (rest: seq<A>)
    requires x in t
    ensures multiset(t) == multiset(rest) + multiset{x}
    ensures multiset(FlatMap(f, t)) == multiset(FlatMap(f, rest)) + multiset(f(x))
  {
    var a, c := Around(t, x);
    rest := a + c;
    Middle(a, [x], c);
    FlatMapAround(f, a, x, c);
  }

  /** Reordering the list reorders what it gives. */
  lemma {:induction false} FlatMapPermutes<A, B>(f: A -> seq<B>, s: seq<A>, t: seq<A>)
    requires multiset(s) == multiset(t)
    ensures multiset(FlatMap(f, s)) == multiset(FlatMap(f, t))
  {
    if s == [] {
      assert |t| == |multiset(t)|;
    } else {
      var init, last := s[..|s| - 1], s[|s| - 1];
      Snoc(s);
      assert last in multiset(t);
      var rest := TakeOut(f, t, last);
      assert multiset(rest) == multiset(t) - multiset{last} == multiset(init);
      FlatMapPermutes(f, init, rest);
      FlatMapLast(f, init, last);
    }
  }

  lemma MapPermutes<A, B>(f: A -> B, s: seq<A>, t: seq<A>)
    requires multiset(s) == multiset(t)
    ensures multiset(Map(f, s)) == multiset(Map(f, t))
  {
    FlatMapPermutes(x => [f(x)], s, t);
    MapFlat(f, s);
    MapFlat(f, t);
  }

  lemma {:induction false} MapFlat<A, B>(f: A -> B, s: seq<A>)
    ensures Map(f, s) == FlatMap(x => [f(x)], s)
  {
    if s != [] {
      MapFlat(f, s[..|s| - 1]);
      Snoc(Map(f, s));
      assert Map(f, s)[..|s| - 1] == Map(f, s[..|s| - 1]);
    }
  }

  function Total<A>(amount: A -> nat, s: seq<A>): nat {
    if s == [] then 0 else Total(amount, s[..|s| - 1]) + amount(s[|s| - 1])
  }

  lemma TotalLast<A>(amount: A -> nat, init: seq<A>, last: A)
    ensures Total(amount, init + [last]) == Total(amount, init) + amount(last)
  {
    assert (init + [last])[..|init|] == init;
  }

  /** As many units as the amount. */
  function Units<A>(amount: A -> nat): A -> seq<()> {
    (x: A) => seq(amount(x), i => ())
  }

  lemma {:induction false} TotalCounts<A>(amount: A -> nat, s: seq<A>)
    ensures Total(amount, s) == |FlatMap(Units(amount), s)|
  {
    if s != [] {
      TotalCounts(amount, s[..|s| - 1]);
    }
  }

  /** Reordering keeps the total. */
  lemma TotalPermutes<A>(amount: A -> nat, s: seq<A>, t: seq<A>)
    requires multiset(s) == multiset(t)
    ensures Total(amount, s) == Total(amount, t)
  {
    TotalCounts(amount, s);
    TotalCounts(amount, t);
    FlatMapPermutes(Units(amount), s, t);
    assert |multiset(FlatMap(Units(amount), s))| == |multiset(FlatMap(Units(amount), t))|;
  }

  /** A list repeats nothing exactly when no element counts twice. */
  lemma {:induction false} DistinctCounts<A(!new)>(s: seq<A>)
    ensures NoRepeat(s) <==> forall x :: multiset(s)[x] <= 1
  {
    if s != [] {
      var init, last := s[..|s| - 1], s[|s| - 1];
      Snoc(s);
      DistinctCounts(init);
      if NoRepeat(s) {
        assert last !in init;
      } else if NoRepeat(init) {
        var i, j :| 0 <= i < j < |s| && s[i] == s[j];
        assert j == |s| - 1 && init[i] == last;
        assert multiset(s)[last] > 1;
      } else {
        var x :| multiset(init)[x] > 1;
        assert multiset(s)[x] > 1;
      }
    }
  }

  /** Reordering keeps a list free of repeats. */
  lemma DistinctPermutes<A(!new)>(s: seq<A>, t: seq<A>)
    requires multiset(s) == multiset(t) && NoRepeat(s)
    ensures NoRepeat(t)
  {
    DistinctCounts(s);
    DistinctCounts(t);
  }

  /** Lists without repeats that hold the same elements are permutations of each other. */
  lemma SameMembers<A(!new)>(s: seq<A>, t: seq<A>)
    requires NoRepeat(s) && NoRepeat(t) && forall x :: x in s <==> x in t
    ensures multiset(s) == multiset(t)
  {
    DistinctCounts(s);
    DistinctCounts(t);
    forall x: A
      ensures multiset(s)[x] == multiset(t)[x]
    {
      assert x in s <==> x in multiset(s);
      assert x in t <==> x in multiset(t);
    }
  }

  /** The images of what is kept and of what is not are together the images of the whole list. */
  lemma MapSplit<A, B>(f: A -> B, keep: A -> bool, s: seq<A>)
    ensures multiset(Map(f, s)) == multiset(Map(f, Filter(keep, s))) + multiset(Map(f, Filter(Not(keep), s)))
  {
    FlatMapSplit(x => [f(x)], keep, s);
    MapFlat(f, s);
    MapFlat(f, Filter(keep, s));
    MapFlat(f, Filter(Not(keep), s));
  }

  ghost predicate Disjoint<A>(a: seq<A>, b: seq<A>) {
    forall i, j :: 0 <= i < |a| && 0 <= j < |b| ==> a[i] != b[j]
  }

  /** Each element gives no repeats and no two give the same. */
  ghost predicate Scattered<A(!new), B>(f: A -> seq<B>, s: seq<A>) {
    && (forall i :: 0 <= i < |s| ==> NoRepeat(f(s[i])))
    && (forall i, j :: 0 <= i < j < |s| ==> Disjoint(f(s[i]), f(s[j])))
  }

  lemma {:induction false} FlatMapMember<A(!new), B>(f: A -> seq<B>, s: seq<A>, y: B)
    ensures y in FlatMap(f, s) <==> exists i :: 0 <= i < |s| && y in f(s[i])
  {
    if s != [] {
      var init, last := s[..|s| - 1], s[|s| - 1];
      FlatMapMember(f, init, y);
      if y in FlatMap(f, init) {
        var i :| 0 <= i < |init| && y in f(init[i]);
        assert s[i] == init[i];
      }
      if i :| 0 <= i < |s| && y in f(s[i]) {
        assert i < |init| ==> init[i] == s[i];
      }
    }
  }

  lemma AppendDistinct<B>(a: seq<B>, b: seq<B>)
    ensures NoRepeat(a + b) <==> NoRepeat(a) && NoRepeat(b) && Disjoint(a, b)
  {
    var c := a + b;
    if NoRepeat(c) {
      assert forall i :: 0 <= i < |a| ==> c[i] == a[i];
      assert forall j :: 0 <= j < |b| ==> c[|a| + j] == b[j];
    }
  }

  /** A list gives no repeats exactly when its elements do not, alone or between them. */
  lemma {:induction false} FlatMapDistinct<A(!new), B(!new)>(f: A -> seq<B>, s: seq<A>)
    ensures NoRepeat(FlatMap(f, s)) <==> Scattered(f, s)
  {
    if s != [] {
      var init, last := s[..|s| - 1], s[|s| - 1];
      FlatMapDistinct(f, init);
      AppendDistinct(FlatMap(f, init), f(last));
      assert s == init + [last];
      if Scattered(f, s) { ScatteredInit(f, init, last); }
      if NoRepeat(FlatMap(f, s)) { ScatteredMore(f, init, last); }
    }
  }

  lemma ScatteredInit<A(!new), B(!new)>(f: A -> seq<B>, init: seq<A>, last: A)
    requires Scattered(f, init + [last])
    ensures Scattered(f, init) && NoRepeat(f(last)) && Disjoint(FlatMap(f, init), f(last))
  {
    var s := init + [last];
    assert forall i :: 0 <= i < |init| ==> s[i] == init[i];
    assert s[|init|] == last;
    forall k, l | 0 <= k < |FlatMap(f, init)| && 0 <= l < |f(last)|
      ensures FlatMap(f, init)[k] != f(last)[l]
    {
      FlatMapMember(f, init, FlatMap(f, init)[k]);
      var i :| 0 <= i < |init| && FlatMap(f, init)[k] in f(init[i]);
      assert Disjoint(f(s[i]), f(s[|init|]));
    }
  }

  lemma ScatteredMore<A(!new), B(!new)>(f: A -> seq<B>, init: seq<A>, last: A)
    requires Scattered(f, init) && NoRepeat(f(last)) && Disjoint(FlatMap(f, init), f(last))
    ensures Scattered(f, init + [last])
  {
    var s := init + [last];
    assert forall i :: 0 <= i < |init| ==> s[i] == init[i];
    forall i, j | 0 <= i < j < |s|
      ensures Disjoint(f(s[i]), f(s[j]))
    {
      if j == |init| {
        forall k, l | 0 <= k < |f(s[i])| && 0 <= l < |f(last)|
          ensures f(s[i])[k] != f(last)[l]
        {
          FlatMapMember(f, init, f(init[i])[k]);
        }
      } else {
        assert s[i] == init[i] && s[j] == init[j];
      }
    }
  }

  /**
   * If `t` gives no repeats, its elements without repeats give what it gives: an element repeated in `t` gives nothing.
   */
  lemma FlatMapOnce<A(!new), B(!new)>(f: A -> seq<B>, s: seq<A>, t: seq<A>)
    requires NoRepeat(s) && NoRepeat(FlatMap(f, t)) && forall x :: x in s <==> x in t
    ensures multiset(FlatMap(f, s)) == multiset(FlatMap(f, t))
  {
    FlatMapDistinct(f, t);
    ScatteredWithin(f, s, t);
    FlatMapDistinct(f, s);
    forall y: B
      ensures y in FlatMap(f, s) <==> y in FlatMap(f, t)
    {
      FlatMapWithin(f, s, t, y);
      FlatMapWithin(f, t, s, y);
    }
    SameMembers(FlatMap(f, s), FlatMap(f, t));
  }

  lemma FlatMapWithin<A(!new), B>(f: A -> seq<B>, s: seq<A>, t: seq<A>, y: B)
    requires forall x :: x in s ==> x in t
    ensures y in FlatMap(f, s) ==> y in FlatMap(f, t)
  {
    FlatMapMember(f, s, y);
    FlatMapMember(f, t, y);
    if i :| 0 <= i < |s| && y in f(s[i]) {
      assert s[i] in t;
    }
  }

  lemma ScatteredWithin<A(!new), B(!new)>(f: A -> seq<B>, s: seq<A>, t: seq<A>)
    requires NoRepeat(s) && Scattered(f, t) && forall x :: x in s ==> x in t
    ensures Scattered(f, s)
  {
    forall i | 0 <= i < |s|
      ensures NoRepeat(f(s[i]))
    {
      assert s[i] in t;
    }
    forall i, j | 0 <= i < j < |s|
      ensures Disjoint(f(s[i]), f(s[j]))
    {
      assert s[i] in t && s[j] in t;
      var k :| 0 <= k < |t| && t[k] == s[i];
      var l :| 0 <= l < |t| && t[l] == s[j];
      assert if k < l then Disjoint(f(t[k]), f(t[l])) else Disjoint(f(t[l]), f(t[k]));
    }
  }

  lemma {:induction false} FlatMapSame<A(!new), B>(f: A -> seq<B>, g: A -> seq<B>, s: seq<A>)
    requires forall i :: 0 <= i < |s| ==> multiset(f(s[i])) == multiset(g(s[i]))
    ensures multiset(FlatMap(f, s)) == multiset(FlatMap(g, s))
  {
    if s != [] {
      FlatMapSame(f, g, s[..|s| - 1]);
    }
  }

  /** Mapping first and flattening then is flattening what both do. */
  lemma {:induction false} FlatMapThrough<A(!new), B, C>(f: B -> seq<C>, g: A -> B, h: A -> seq<C>, s: seq<A>)
    requires forall i :: 0 <= i < |s| ==> f(g(s[i])) == h(s[i])
    ensures FlatMap(f, Map(g, s)) == FlatMap(h, s)
  {
    if s != [] {
      assert Map(g, s)[..|s| - 1] == Map(g, s[..|s| - 1]);
      FlatMapThrough(f, g, h, s[..|s| - 1]);
    }
  }

  /** Take the elements in turn, from `start`; none once a step refuses. */
  function Steps<A, S>(step: (S, A) -> Option<S>, start: S, s: seq<A>): Option<S> {
    if s == [] then Some(start)
    else
      match Steps(step, start, s[..|s| - 1])
      case None => None
      case Some(before) => step(before, s[|s| - 1])
  }

  lemma StepsNext<A, S>(step: (S, A) -> Option<S>, start: S, s: seq<A>, n: nat)
    requires n < |s| && Steps(step, start, s[..n]).Some?
    ensures Steps(step, start, s[..n + 1]) == step(Steps(step, start, s[..n]).value, s[n])
  {
    assert s[..n + 1][..n] == s[..n];
  }

  /** What is refused early is refused in the end. */
  lemma {:induction false} StepsStop<A, S>(step: (S, A) -> Option<S>, start: S, s: seq<A>, n: nat)
    requires n <= |s| && Steps(step, start, s[..n]).None?
    ensures Steps(step, start, s).None?
    decreases |s| - n
  {
    if n == |s| {
      assert s[..n] == s;
    } else {
      assert s[..n + 1][..n] == s[..n];
      StepsStop(step, start, s, n + 1);
    }
  }
}
