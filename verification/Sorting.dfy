/** The language's stable sort, by any order that says when its first argument may stay before its second. */
module Sorting {
  import opened Sequences

  type Order<!T> = (T, T) -> bool

  /** Put `x` before the first element it may not follow. */
  function Insert<T>(before: Order<T>, x: T, s: seq<T>): seq<T> {
    if s == [] then [x] else if before(s[0], x) then [s[0]] + Insert(before, x, s[1..]) else [x] + s
  }

  function Sort<T>(before: Order<T>, s: seq<T>): seq<T> {
    if s == [] then [] else Insert(before, s[|s| - 1], Sort(before, s[..|s| - 1]))
  }

  ghost predicate Preorder<T(!new)>(before: Order<T>) {
    && (forall a, b :: before(a, b) || before(b, a))
    && (forall a, b, c :: before(a, b) && before(b, c) ==> before(a, c))
  }

  ghost predicate Sorted<T>(before: Order<T>, s: seq<T>) {
    forall i, j :: 0 <= i < j < |s| ==> before(s[i], s[j])
  }

  lemma {:induction false} InsertPermutes<T>(before: Order<T>, x: T, s: seq<T>)
    ensures multiset(Insert(before, x, s)) == multiset(s) + multiset{x}
  {
    if s != [] && before(s[0], x) {
      InsertPermutes(before, x, s[1..]);
      assert s == [s[0]] + s[1..];
    }
  }

  /** The sort returns the same elements, each as often. */
  lemma {:induction false} SortPermutes<T>(before: Order<T>, s: seq<T>)
    ensures multiset(Sort(before, s)) == multiset(s)
  {
    if s != [] {
      SortPermutes(before, s[..|s| - 1]);
      InsertPermutes(before, s[|s| - 1], Sort(before, s[..|s| - 1]));
      assert s == s[..|s| - 1] + [s[|s| - 1]];
    }
  }

  lemma {:induction false} InsertBelow<T(!new)>(before: Order<T>, x: T, s: seq<T>, least: T)
    requires before(least, x) && forall j :: 0 <= j < |s| ==> before(least, s[j])
    ensures forall j :: 0 <= j < |Insert(before, x, s)| ==> before(least, Insert(before, x, s)[j])
  {
    if s != [] && before(s[0], x) {
      InsertBelow(before, x, s[1..], least);
    }
  }

  lemma {:induction false} InsertSorts<T(!new)>(before: Order<T>, x: T, s: seq<T>)
    requires Preorder(before) && Sorted(before, s)
    ensures Sorted(before, Insert(before, x, s))
  {
    if s != [] && before(s[0], x) {
      InsertSorts(before, x, s[1..]);
      InsertBelow(before, x, s[1..], s[0]);
    } else {
      assert forall j :: 0 <= j < |s| ==> before(x, s[j]);
    }
  }

  lemma {:induction false} SortSorts<T(!new)>(before: Order<T>, s: seq<T>)
    requires Preorder(before)
    ensures Sorted(before, Sort(before, s))
  {
    if s != [] {
      SortSorts(before, s[..|s| - 1]);
      InsertSorts(before, s[|s| - 1], Sort(before, s[..|s| - 1]));
    }
  }

  lemma HeadAndTail<T>(s: seq<T>)
    requires s != []
    ensures multiset(s[1..]) == multiset(s) - multiset{s[0]} && s[0] in multiset(s)
  {
    assert s == [s[0]] + s[1..];
  }

  lemma SameFirst<T(!new)>(before: Order<T>, s: seq<T>, t: seq<T>)
    requires forall a, b :: before(a, b) && before(b, a) ==> a == b
    requires Sorted(before, s) && Sorted(before, t) && s != [] && t != [] && s[0] in t && t[0] in s
    ensures s[0] == t[0]
  {
    var i :| 0 <= i < |t| && t[i] == s[0];
    var j :| 0 <= j < |s| && s[j] == t[0];
  }

  lemma TailSorted<T>(before: Order<T>, s: seq<T>)
    requires Sorted(before, s) && s != []
    ensures Sorted(before, s[1..])
  {
  }

  /** When no two different elements may stand either way round, there is one sorted order. */
  lemma {:induction false} SortedUnique<T(!new)>(before: Order<T>, s: seq<T>, t: seq<T>)
    requires forall a, b :: before(a, b) && before(b, a) ==> a == b
    requires Sorted(before, s) && Sorted(before, t) && multiset(s) == multiset(t)
    ensures s == t
  {
    assert |multiset(s)| == |s| && |multiset(t)| == |t|;
    if s != [] {
      HeadAndTail(s);
      HeadAndTail(t);
      assert s[0] in t && t[0] in s;
      SameFirst(before, s, t);
      TailSorted(before, s);
      TailSorted(before, t);
      SortedUnique(before, s[1..], t[1..]);
      assert s == [s[0]] + s[1..] && t == [t[0]] + t[1..];
    }
  }

  // ---------------------------------------------------------------- sorting by an image

  function Through<S, T>(f: S -> T, before: Order<T>): Order<S> {
    (a: S, b: S) => before(f(a), f(b))
  }

  lemma {:induction false} InsertThrough<S, T>(f: S -> T, before: Order<T>, x: S, s: seq<S>)
    ensures Map(f, Insert(Through(f, before), x, s)) == Insert(before, f(x), Map(f, s))
  {
    if s != [] && before(f(s[0]), f(x)) {
      InsertThrough(f, before, x, s[1..]);
      assert Map(f, s)[1..] == Map(f, s[1..]);
      assert Map(f, [s[0]] + Insert(Through(f, before), x, s[1..])) ==
             [f(s[0])] + Map(f, Insert(Through(f, before), x, s[1..]));
    } else {
      assert Map(f, [x] + s) == [f(x)] + Map(f, s);
    }
  }

  /** Sorting by an image and then taking images is taking images and then sorting. */
  lemma {:induction false} SortThrough<S, T>(f: S -> T, before: Order<T>, s: seq<S>)
    ensures Map(f, Sort(Through(f, before), s)) == Sort(before, Map(f, s))
  {
    if s != [] {
      var init := s[..|s| - 1];
      SortThrough(f, before, init);
      InsertThrough(f, before, s[|s| - 1], Sort(Through(f, before), init));
      assert Map(f, s)[..|s| - 1] == Map(f, init);
    } else {
      assert Map(f, s) == [];
    }
  }

  /** Elements that may stand either way round. */
  ghost predicate Ties<T(!new)>(before: Order<T>, keep: T -> bool) {
    forall a, b :: keep(a) && keep(b) ==> before(a, b)
  }

  lemma FilterCons<T>(keep: T -> bool, x: T, s: seq<T>)
    ensures Filter(keep, [x] + s) == (if keep(x) then [x] else []) + Filter(keep, s)
  {
    FilterAppend(keep, [x], s);
    assert Filter(keep, [x]) == if keep(x) then [x] else [] by {
      FilterLast(keep, [], x);
      assert [] + [x] == [x];
    }
  }

  /** What ties with `x` does not come after a place `x` may be put before. */
  lemma NoTiesAfter<T(!new)>(before: Order<T>, keep: T -> bool, x: T, s: seq<T>)
    requires Preorder(before) && Sorted(before, s) && Ties(before, keep) && keep(x) && (s != [] ==> !before(s[0], x))
    ensures Filter(keep, s) == []
  {
    forall i | 0 <= i < |s|
      ensures !keep(s[i])
    {
      assert i > 0 ==> before(s[0], s[i]);
    }
    FilterNone(keep, s);
  }

  lemma {:induction false} InsertKeepsTies<T(!new)>(before: Order<T>, keep: T -> bool, x: T, s: seq<T>)
    requires Preorder(before) && Sorted(before, s) && Ties(before, keep)
    ensures Filter(keep, Insert(before, x, s)) == Filter(keep, s) + if keep(x) then [x] else []
  {
    if s != [] && before(s[0], x) {
      var rest := Insert(before, x, s[1..]);
      TailSorted(before, s);
      InsertKeepsTies(before, keep, x, s[1..]);
      FilterCons(keep, s[0], rest);
      FilterHead(keep, s);
    } else {
      FilterCons(keep, x, s);
      if keep(x) { NoTiesAfter(before, keep, x, s); }
    }
  }

  lemma FilterHead<T>(keep: T -> bool, s: seq<T>)
    requires s != []
    ensures Filter(keep, s) == (if keep(s[0]) then [s[0]] else []) + Filter(keep, s[1..])
  {
    FilterCons(keep, s[0], s[1..]);
    assert s == [s[0]] + s[1..];
  }

  /** The sort is stable: elements that tie stay in the order they came in. */
  lemma {:induction false} SortKeepsTies<T(!new)>(before: Order<T>, keep: T -> bool, s: seq<T>)
    requires Preorder(before) && Ties(before, keep)
    ensures Filter(keep, Sort(before, s)) == Filter(keep, s)
  {
    if s != [] {
      var init, last := s[..|s| - 1], s[|s| - 1];
      SortKeepsTies(before, keep, init);
      SortSorts(before, init);
      InsertKeepsTies(before, keep, last, Sort(before, init));
    }
  }
}
