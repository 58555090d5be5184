/**
 * How balanced the greedy split of module Shard is: Graham's bound for any order of placement, and the sharper bound
 * that holds because the items are placed heaviest first. Both compare the heaviest group with the heaviest group of
 * any other assignment of the same items to the same number of groups.
 */
module ShardBalance {
  import opened Sequences
  import opened Sorting
  import opened Shard

  function Max(a: nat, b: nat): nat { if a < b then b else a }

  /** The largest single weight. */
  function Heaviest(items: seq<Item>): nat {
    if items == [] then 0 else Max(Heaviest(items[..|items| - 1]), items[|items| - 1].weight)
  }

  /** All the groups' loads together. */
  function TotalLoad(groups: seq<seq<Item>>): nat {
    if groups == [] then 0 else TotalLoad(groups[..|groups| - 1]) + Load(groups[|groups| - 1])
  }

  // ---------------------------------------------------------------- Graham's bound

  lemma LoadMore(group: seq<Item>, x: Item)
    ensures Load(group + [x]) == Load(group) + x.weight
  {
    assert (group + [x])[..|group + [x]| - 1] == group;
  }

  lemma {:induction false} TotalPut(groups: seq<seq<Item>>, k: nat, x: Item)
    requires k < |groups|
    ensures TotalLoad(groups[k := groups[k] + [x]]) == TotalLoad(groups) + x.weight
  {
    var last := |groups| - 1;
    var put := groups[k := groups[k] + [x]];
    if k == last {
      LoadMore(groups[k], x);
      assert put[..last] == groups[..last];
    } else {
      assert put[..last] == groups[..last][k := groups[..last][k] + [x]];
      TotalPut(groups[..last], k, x);
    }
  }

  lemma {:induction false} TotalEmpty(m: nat)
    ensures TotalLoad(seq(m, i => [])) == 0
  {
    if m != 0 {
      assert seq(m, i => [])[..m - 1] == seq<seq<Item>>(m - 1, i => []);
      TotalEmpty(m - 1);
    }
  }

  lemma {:induction false} GreedyTotal(items: seq<Item>, m: nat)
    requires m > 0
    ensures TotalLoad(Greedy(items, m)) == Load(items)
  {
    if items == [] {
      TotalEmpty(m);
    } else {
      var init := items[..|items| - 1];
      GreedyTotal(init, m);
      TotalPut(Greedy(init, m), Lightest(Greedy(init, m), m), items[|items| - 1]);
    }
  }

  /** Groups each at least this heavy weigh at least that many times it together. */
  lemma {:induction false} TotalAtLeast(groups: seq<seq<Item>>, least: nat)
    requires forall i :: 0 <= i < |groups| ==> least <= Load(groups[i])
    ensures |groups| * least <= TotalLoad(groups)
  {
    if groups != [] {
      TotalAtLeast(groups[..|groups| - 1], least);
      OneMore(|groups|, least);
    }
  }

  lemma OneMore(n: nat, x: nat)
    requires n > 0
    ensures n * x == (n - 1) * x + x
  {
  }

  /** The load of the lightest group. */
  function LightLoad(items: seq<Item>, m: nat): nat
    requires m > 0
  {
    var groups := Greedy(items, m);
    Load(groups[Lightest(groups, m)])
  }

  /** The load the last item makes. */
  function LastLoad(items: seq<Item>, m: nat): nat
    requires items != [] && m > 0
  {
    LightLoad(items[..|items| - 1], m) + items[|items| - 1].weight
  }

  /** The lightest group is no heavier than the average. */
  lemma LightestBelowAverage(items: seq<Item>, m: nat)
    requires m > 0
    ensures m * LightLoad(items, m) <= Load(items)
  {
    GreedyTotal(items, m);
    TotalAtLeast(Greedy(items, m), LightLoad(items, m));
  }

  lemma PlacedLoads(groups: seq<seq<Item>>, x: Item, k: nat)
    requires k < |groups|
    ensures var light := Lightest(groups, |groups|);
      Load(Place(groups, x)[k]) == if k == light then Load(groups[light]) + x.weight else Load(groups[k])
  {
    LoadMore(groups[k], x);
  }

  lemma InitPrefix(items: seq<Item>, n: nat)
    requires n < |items|
    ensures items[..|items| - 1][..n] == items[..n]
  {
  }

  lemma LoadNext(items: seq<Item>, m: nat, k: nat)
    requires items != [] && k < m
    ensures var init := items[..|items| - 1];
      Load(Greedy(items, m)[k]) ==
      if k == Lightest(Greedy(init, m), m) then LastLoad(items, m) else Load(Greedy(init, m)[k])
  {
    PlacedLoads(Greedy(items[..|items| - 1], m), items[|items| - 1], k);
  }

  lemma NoLoad(m: nat, k: nat)
    requires k < m
    ensures Load(Greedy([], m)[k]) == 0
  {
  }

  /** A load is reached by putting one item on the lightest group of an earlier moment. */
  lemma {:induction false} LoadReached(items: seq<Item>, m: nat, k: nat) returns (n: nat)
    requires k < m
    ensures n <= |items|
    ensures Load(Greedy(items, m)[k]) == if n == 0 then 0 else LightLoad(items[..n - 1], m) + items[n - 1].weight
  {
    if items == [] {
      n := 0;
      NoLoad(m, k);
    } else {
      var init := items[..|items| - 1];
      LoadNext(items, m, k);
      n := |items|;
      if k != Lightest(Greedy(init, m), m) {
        n := LoadReached(init, m, k);
        if n > 0 { InitPrefix(items, n - 1); }
      }
    }
  }

  lemma {:induction false} PrefixLighter(items: seq<Item>, n: nat)
    requires 0 < n <= |items|
    ensures Load(items[..n - 1]) + items[n - 1].weight <= Load(items) && items[n - 1].weight <= Heaviest(items)
    decreases |items|
  {
    if n < |items| {
      var init := items[..|items| - 1];
      PrefixLighter(init, n);
      assert init[..n - 1] == items[..n - 1];
    }
  }

  lemma GrahamStep(m: nat, light: nat, weight: nat, before: nat, total: nat, heaviest: nat)
    requires m > 0 && m * light <= before && before + weight <= total && weight <= heaviest
    ensures m * (light + weight) <= total + (m - 1) * heaviest
  {
    Times(m - 1, weight, heaviest);
    assert m * (light + weight) == m * light + weight + (m - 1) * weight;
  }

  /** `m` times this load is at most the total and `m - 1` times the largest item. */
  predicate WithinGraham(m: nat, load: nat, total: nat, heaviest: nat)
    requires m > 0
  {
    m * load <= total + (m - 1) * heaviest
  }

  lemma NothingWithin(m: nat, total: nat, heaviest: nat)
    requires m > 0
    ensures WithinGraham(m, 0, total, heaviest)
  {
  }

  lemma {:induction false} ReachedWithin(before: seq<Item>, weight: nat, m: nat, load: nat, total: nat, heaviest: nat)
    requires m > 0 && load == LightLoad(before, m) + weight
    requires Load(before) + weight <= total && weight <= heaviest
    ensures WithinGraham(m, load, total, heaviest)
  {
    LightestBelowAverage(before, m);
    GrahamStep(m, LightLoad(before, m), weight, Load(before), total, heaviest);
  }

  /** Graham: `m` times any load is at most the total plus `m - 1` times the largest item. */
  lemma GreedyBound(items: seq<Item>, m: nat, k: nat)
    requires k < m
    ensures WithinGraham(m, Load(Greedy(items, m)[k]), Load(items), Heaviest(items))
  {
    var n := LoadReached(items, m, k);
    var load := Load(Greedy(items, m)[k]);
    if n == 0 {
      NothingWithin(m, Load(items), Heaviest(items));
    } else {
      PrefixLighter(items, n);
      ReachedWithin(items[..n - 1], items[n - 1].weight, m, load, Load(items), Heaviest(items));
    }
  }

  lemma Times(n: nat, a: nat, b: nat)
    requires a <= b
    ensures n * a <= n * b
  {
  }

  // ---------------------------------------------------------------- any other assignment

  /** Any other way to assign the items to groups: the group of each position. */
  type Assignment = nat -> nat

  function LoadUnder(items: seq<Item>, assign: Assignment, k: nat): nat {
    if items == [] then 0
    else
      var last := |items| - 1;
      LoadUnder(items[..last], assign, k) + if assign(last) == k then items[last].weight else 0
  }

  function CountUnder(items: seq<Item>, assign: Assignment, k: nat): nat {
    if items == [] then 0
    else CountUnder(items[..|items| - 1], assign, k) + if assign(|items| - 1) == k then 1 else 0
  }

  /** The assignment uses groups `0..m`, and no group is heavier than `bound`. */
  ghost predicate Achieves(items: seq<Item>, assign: Assignment, m: nat, bound: nat) {
    && (forall i :: 0 <= i < |items| ==> assign(i) < m)
    && (forall k :: 0 <= k < m ==> LoadUnder(items, assign, k) <= bound)
  }

  function LoadsUpTo(items: seq<Item>, assign: Assignment, n: nat): nat {
    if n == 0 then 0 else LoadsUpTo(items, assign, n - 1) + LoadUnder(items, assign, n - 1)
  }

  function CountsUpTo(items: seq<Item>, assign: Assignment, n: nat): nat {
    if n == 0 then 0 else CountsUpTo(items, assign, n - 1) + CountUnder(items, assign, n - 1)
  }

  lemma {:induction false} UpToMore(items: seq<Item>, assign: Assignment, n: nat)
    requires items != []
    ensures var init, x := items[..|items| - 1], items[|items| - 1];
      && LoadsUpTo(items, assign, n) == LoadsUpTo(init, assign, n) + (if assign(|init|) < n then x.weight else 0)
      && CountsUpTo(items, assign, n) == CountsUpTo(init, assign, n) + (if assign(|init|) < n then 1 else 0)
  {
    if n != 0 {
      UpToMore(items, assign, n - 1);
    }
  }

  lemma {:induction false} UpToEmpty(assign: Assignment, n: nat)
    ensures LoadsUpTo([], assign, n) == 0 && CountsUpTo([], assign, n) == 0
  {
    if n != 0 {
      UpToEmpty(assign, n - 1);
    }
  }

  /** Every item is counted in exactly one group. */
  lemma {:induction false} UpToAll(items: seq<Item>, assign: Assignment, m: nat)
    requires forall i :: 0 <= i < |items| ==> assign(i) < m
    ensures LoadsUpTo(items, assign, m) == Load(items) && CountsUpTo(items, assign, m) == |items|
  {
    if items == [] {
      UpToEmpty(assign, m);
    } else {
      UpToMore(items, assign, m);
      UpToAll(items[..|items| - 1], assign, m);
    }
  }

  lemma {:induction false} LoadsAtMost(items: seq<Item>, assign: Assignment, n: nat, bound: nat)
    requires forall k :: 0 <= k < n ==> LoadUnder(items, assign, k) <= bound
    ensures LoadsUpTo(items, assign, n) <= n * bound
  {
    if n != 0 {
      LoadsAtMost(items, assign, n - 1, bound);
    }
  }

  lemma {:induction false} LoadUnderHolds(items: seq<Item>, assign: Assignment, i: nat)
    requires i < |items|
    ensures items[i].weight <= LoadUnder(items, assign, assign(i))
  {
    if i < |items| - 1 {
      LoadUnderHolds(items[..|items| - 1], assign, i);
    }
  }

  lemma HeaviestWithin(items: seq<Item>, assign: Assignment, m: nat, bound: nat)
    requires Achieves(items, assign, m, bound)
    ensures Heaviest(items) <= bound
  {
    var i := HeaviestAt(items);
    if items != [] {
      LoadUnderHolds(items, assign, i);
    }
  }

  lemma {:induction false} HeaviestAt(items: seq<Item>) returns (i: nat)
    ensures items != [] ==> i < |items| && items[i].weight == Heaviest(items)
  {
    i := 0;
    if items != [] {
      i := HeaviestAt(items[..|items| - 1]);
      if |items| == 1 || Heaviest(items[..|items| - 1]) < items[|items| - 1].weight {
        i := |items| - 1;
      }
    }
  }

  /** No assignment can do better than the average, nor better than its largest item. */
  lemma AchievesAverage(items: seq<Item>, assign: Assignment, m: nat, bound: nat)
    requires Achieves(items, assign, m, bound)
    ensures Load(items) <= m * bound
  {
    UpToAll(items, assign, m);
    LoadsAtMost(items, assign, m, bound);
  }

  /** The greedy split is within a factor `2 - 1/m` of any other assignment, in whatever order items are placed. */
  lemma GreedyCompetes(items: seq<Item>, m: nat, k: nat, assign: Assignment, bound: nat)
    requires k < m && Achieves(items, assign, m, bound)
    ensures m * Load(Greedy(items, m)[k]) <= (2 * m - 1) * bound
  {
    GreedyBound(items, m, k);
    AchievesAverage(items, assign, m, bound);
    HeaviestWithin(items, assign, m, bound);
    TwiceLessOne(m, Load(Greedy(items, m)[k]), Load(items), Heaviest(items), bound);
  }

  lemma TwiceLessOne(m: nat, load: nat, total: nat, heaviest: nat, bound: nat)
    requires m > 0 && m * load <= total + (m - 1) * heaviest && total <= m * bound && heaviest <= bound
    ensures m * load <= (2 * m - 1) * bound
  {
    Times(m - 1, heaviest, bound);
    assert (2 * m - 1) * bound == m * bound + (m - 1) * bound;
  }

  // ---------------------------------------------------------------- heaviest first: the other assignment

  /** Weights never increase along the list. */
  ghost predicate Descending(items: seq<Item>) {
    forall i, j :: 0 <= i <= j < |items| ==> items[i].weight >= items[j].weight
  }

  lemma {:induction false} CountTimes(items: seq<Item>, assign: Assignment, k: nat, least: nat)
    requires forall i :: 0 <= i < |items| ==> least <= items[i].weight
    ensures CountUnder(items, assign, k) * least <= LoadUnder(items, assign, k)
  {
    if items != [] {
      CountTimes(items[..|items| - 1], assign, k, least);
    }
  }

  /** Two items on one group: the group carries both. */
  lemma {:induction false} TwoTogether(items: seq<Item>, assign: Assignment, i: nat, j: nat)
    requires i < j < |items| && assign(i) == assign(j)
    ensures items[i].weight + items[j].weight <= LoadUnder(items, assign, assign(i))
  {
    var init := items[..|items| - 1];
    if j < |items| - 1 {
      TwoTogether(init, assign, i, j);
    } else {
      LoadUnderHolds(init, assign, i);
    }
  }

  /** No other item shares the group of item `i`. */
  ghost predicate Alone(items: seq<Item>, assign: Assignment, i: nat)
    requires i < |items|
  {
    forall j :: 0 <= j < |items| && j != i ==> assign(j) != assign(i)
  }

  lemma {:induction false} CountNone(items: seq<Item>, assign: Assignment, k: nat)
    requires forall i :: 0 <= i < |items| ==> assign(i) != k
    ensures CountUnder(items, assign, k) == 0
  {
    if items != [] {
      CountNone(items[..|items| - 1], assign, k);
    }
  }

  lemma {:induction false} CountOne(items: seq<Item>, assign: Assignment, i: nat)
    requires i < |items| && Alone(items, assign, i)
    ensures CountUnder(items, assign, assign(i)) == 1
  {
    var init := items[..|items| - 1];
    if i == |items| - 1 {
      CountNone(init, assign, assign(i));
    } else {
      assert forall j :: 0 <= j < |init| ==> init[j] == items[j];
      CountOne(init, assign, i);
    }
  }

  lemma {:induction false} CountPrefix(items: seq<Item>, assign: Assignment, k: nat, t: nat)
    requires t <= |items|
    ensures CountUnder(items[..t], assign, k) <= CountUnder(items, assign, k)
    ensures CountUnder(items[..t], assign, k) > 0 ==> exists i :: 0 <= i < t && assign(i) == k
  {
    if t < |items| {
      assert items[..|items| - 1][..t] == items[..t];
      CountPrefix(items[..|items| - 1], assign, k, t);
    } else {
      assert items[..t] == items;
      if CountUnder(items, assign, k) > 0 && (forall i :: 0 <= i < t ==> assign(i) != k) {
        CountNone(items, assign, k);
      }
    }
  }

  lemma {:induction false} PairsUpTo(items: seq<Item>, t: nat, assign: Assignment, n: nat)
    requires t <= |items|
    requires forall k :: 0 <= k < n ==> CountUnder(items[..t], assign, k) + CountUnder(items, assign, k) <= 2
    ensures CountsUpTo(items[..t], assign, n) + CountsUpTo(items, assign, n) <= 2 * n
  {
    if n != 0 {
      PairsUpTo(items, t, assign, n - 1);
    }
  }

  /**
   * If the first `t` items each have a group to themselves and no group has three items, there are at most `2m - t`
   * items.
   */
  lemma AloneCount(items: seq<Item>, assign: Assignment, m: nat, t: nat)
    requires t <= |items| && forall i :: 0 <= i < |items| ==> assign(i) < m
    requires forall k :: 0 <= k < m ==> CountUnder(items, assign, k) <= 2
    requires forall i :: 0 <= i < t ==> Alone(items, assign, i)
    ensures t + |items| <= 2 * m
  {
    forall k | 0 <= k < m
      ensures CountUnder(items[..t], assign, k) + CountUnder(items, assign, k) <= 2
    {
      CountPrefix(items, assign, k, t);
      if CountUnder(items[..t], assign, k) > 0 {
        var i :| 0 <= i < t && assign(i) == k;
        CountOne(items, assign, i);
      }
    }
    PairsUpTo(items, t, assign, m);
    UpToAll(items, assign, m);
    UpToAll(items[..t], assign, m);
  }

  lemma FewerThanThree(count: nat, least: nat, load: nat, bound: nat)
    requires least * count <= load <= bound && 3 * least > bound
    ensures count <= 2
  {
    if count > 2 {
      Times(least, 3, count);
    }
  }

  /** With more items than groups and at most two to a group, one of the heaviest `2m - n + 1` must share its group. */
  lemma SomeoneShares(items: seq<Item>, assign: Assignment, m: nat, bound: nat)
    requires Descending(items) && Achieves(items, assign, m, bound) && m < |items|
    requires 3 * items[|items| - 1].weight > bound
    ensures |items| <= 2 * m
    ensures items[2 * m - |items|].weight + items[|items| - 1].weight <= bound
  {
    var n := |items|;
    var least := items[n - 1].weight;
    forall k | 0 <= k < m
      ensures CountUnder(items, assign, k) <= 2
    {
      CountTimes(items, assign, k, least);
      FewerThanThree(CountUnder(items, assign, k), least, LoadUnder(items, assign, k), bound);
    }
    AloneCount(items, assign, m, 0);
    var t := 2 * m - n + 1;
    if forall i :: 0 <= i < t ==> Alone(items, assign, i) {
      AloneCount(items, assign, m, t);
    }
    var i :| 0 <= i < t && !Alone(items, assign, i);
    var j :| 0 <= j < n && j != i && assign(j) == assign(i);
    if i < j { TwoTogether(items, assign, i, j); } else { TwoTogether(items, assign, j, i); }
  }

  // ---------------------------------------------------------------- heaviest first: the greedy split

  /** The first `m` items, none weightless, go one to a group, in order. */
  lemma {:induction false} FirstRound(items: seq<Item>, m: nat, k: nat)
    requires |items| <= m && k < m && (forall i :: 0 <= i < |items| ==> items[i].weight > 0)
    ensures Greedy(items, m)[k] == if k < |items| then [items[k]] else []
  {
    if items != [] {
      var init, x := items[..|items| - 1], items[|items| - 1];
      var groups := Greedy(init, m);
      forall i | 0 <= i < m
        ensures groups[i] == (if i < |init| then [items[i]] else [])
        ensures Load(groups[i]) == if i < |init| then items[i].weight else 0
      {
        FirstRound(init, m, i);
        if i < |init| { LoadMore([], items[i]); assert [] + [items[i]] == [items[i]]; }
      }
      assert Lightest(groups, m) == |init|;
      assert Greedy(items, m) == groups[|init| := groups[|init|] + [x]];
      assert [] + [x] == [x];
    }
  }

  /** How many of the groups `lo..hi` still hold exactly their first item. */
  function Untouched(groups: seq<seq<Item>>, items: seq<Item>, lo: nat, hi: nat): nat
    requires lo <= hi <= |groups| && hi <= |items|
    decreases hi - lo
  {
    if lo == hi then 0 else Untouched(groups, items, lo, hi - 1) + if groups[hi - 1] == [items[hi - 1]] then 1 else 0
  }

  lemma {:induction false} UntouchedPut(groups: seq<seq<Item>>, items: seq<Item>, lo: nat, hi: nat,
          k: nat, g: seq<Item>)
    requires lo <= hi <= |groups| && hi <= |items| && k < |groups|
    ensures Untouched(groups[k := g], items, lo, hi) + 1 >= Untouched(groups, items, lo, hi)
    ensures k >= hi ==> Untouched(groups[k := g], items, lo, hi) == Untouched(groups, items, lo, hi)
    decreases hi - lo
  {
    if lo < hi {
      UntouchedPut(groups, items, lo, hi - 1, k, g);
    }
  }

  lemma {:induction false} UntouchedAll(groups: seq<seq<Item>>, items: seq<Item>, lo: nat, hi: nat)
    requires lo <= hi <= |groups| && hi <= |items|
    requires forall i :: lo <= i < hi ==> groups[i] == [items[i]]
    ensures Untouched(groups, items, lo, hi) == hi - lo
    decreases hi - lo
  {
    if lo < hi {
      UntouchedAll(groups, items, lo, hi - 1);
    }
  }

  lemma {:induction false} UntouchedOne(groups: seq<seq<Item>>, items: seq<Item>, lo: nat, hi: nat) returns (i: nat)
    requires lo <= hi <= |groups| && hi <= |items| && Untouched(groups, items, lo, hi) > 0
    ensures lo <= i < hi && groups[i] == [items[i]]
    decreases hi - lo
  {
    i := hi - 1;
    if groups[hi - 1] != [items[hi - 1]] {
      i := UntouchedOne(groups, items, lo, hi - 1);
    }
  }

  lemma AfterFirstRound(items: seq<Item>, m: nat, lo: nat)
    requires m <= |items| && lo <= m && m > 0 && (forall i :: 0 <= i < |items| ==> items[i].weight > 0)
    ensures Untouched(Greedy(items[..m], m), items, lo, m) == m - lo
  {
    forall k | lo <= k < m
      ensures Greedy(items[..m], m)[k] == [items[k]]
    {
      FirstRound(items[..m], m, k);
    }
    UntouchedAll(Greedy(items[..m], m), items, lo, m);
  }

  lemma OneMoreTouched(items: seq<Item>, m: nat, n: nat, lo: nat)
    requires 0 < m <= n < |items| && lo <= m
    ensures Untouched(Greedy(items[..n + 1], m), items, lo, m) + 1 >= Untouched(Greedy(items[..n], m), items, lo, m)
  {
    var groups, x := Greedy(items[..n], m), items[n];
    var k := Lightest(groups, m);
    assert items[..n + 1][..n] == items[..n];
    UntouchedPut(groups, items, lo, m, k, groups[k] + [x]);
  }

  /** After the first round, each further item touches one group at most. */
  lemma {:induction false} LaterRounds(items: seq<Item>, m: nat, n: nat, lo: nat)
    requires m <= n <= |items| && lo <= m && m > 0 && (forall i :: 0 <= i < |items| ==> items[i].weight > 0)
    ensures Untouched(Greedy(items[..n], m), items, lo, m) + (n - m) >= m - lo
    decreases n - m
  {
    if n == m {
      AfterFirstRound(items, m, lo);
    } else {
      LaterRounds(items, m, n - 1, lo);
      OneMoreTouched(items, m, n - 1, lo);
    }
  }

  /** Fewer items than groups: the lightest group is empty. */
  lemma LightestEmpty(items: seq<Item>, m: nat)
    requires |items| < m && (forall i :: 0 <= i < |items| ==> items[i].weight > 0)
    ensures LightLoad(items, m) == 0
  {
    FirstRound(items, m, m - 1);
  }

  /** At most `2m` items: some group still holds only its first item, one of the lighter ones of the first round. */
  lemma LightestSingle(items: seq<Item>, m: nat, n: nat, lo: nat)
    requires m <= n < |items| && m > 0 && lo == 2 * m - n - 1 && lo < m
    requires Descending(items) && (forall i :: 0 <= i < |items| ==> items[i].weight > 0)
    ensures LightLoad(items[..n], m) <= items[lo].weight
  {
    var groups := Greedy(items[..n], m);
    LaterRounds(items, m, n, lo);
    var i := UntouchedOne(groups, items, lo, m);
    LoadMore([], items[i]);
    assert [] + [items[i]] == [items[i]];
  }

  lemma NoneWeightless(items: seq<Item>)
    requires items != [] && Descending(items) && items[|items| - 1].weight > 0
    ensures forall i :: 0 <= i < |items| ==> items[i].weight > 0
  {
  }

  /** When the last item is more than a third of `bound`, putting it on the lightest group stays within `bound`. */
  lemma LastItemFits(items: seq<Item>, m: nat, assign: Assignment, bound: nat)
    requires items != [] && m > 0 && Descending(items) && Achieves(items, assign, m, bound)
    requires 3 * items[|items| - 1].weight > bound
    ensures LastLoad(items, m) <= bound
  {
    var n := |items|;
    NoneWeightless(items);
    if n <= m {
      LightestEmpty(items[..n - 1], m);
      LoadUnderHolds(items, assign, n - 1);
    } else {
      SomeoneShares(items, assign, m, bound);
      LightestSingle(items, m, n - 1, 2 * m - n);
    }
  }

  lemma {:induction false} AchievesPrefix(items: seq<Item>, assign: Assignment, m: nat, bound: nat, n: nat)
    requires n <= |items| && Achieves(items, assign, m, bound)
    ensures Achieves(items[..n], assign, m, bound)
  {
    if n < |items| {
      var init := items[..|items| - 1];
      assert forall i :: 0 <= i < |init| ==> init[i] == items[i];
      assert forall k :: LoadUnder(init, assign, k) <= LoadUnder(items, assign, k);
      AchievesPrefix(init, assign, m, bound, n);
      assert init[..n] == items[..n];
    } else {
      assert items[..n] == items;
    }
  }

  /** `load` is within `4/3 - 1/(3m)` of `bound`. */
  predicate WithinThirds(m: nat, load: nat, bound: nat) {
    3 * m * load <= (4 * m - 1) * bound
  }

  lemma LastItemLarge(items: seq<Item>, m: nat, assign: Assignment, bound: nat)
    requires items != [] && m > 0 && Descending(items) && Achieves(items, assign, m, bound)
    requires 3 * items[|items| - 1].weight > bound
    ensures WithinThirds(m, LastLoad(items, m), bound)
  {
    LastItemFits(items, m, assign, bound);
    ThirdsSmall(m, LastLoad(items, m), bound);
  }

  lemma LastItemSmall(items: seq<Item>, m: nat, assign: Assignment, bound: nat)
    requires items != [] && m > 0 && Achieves(items, assign, m, bound)
    requires 3 * items[|items| - 1].weight <= bound
    ensures WithinThirds(m, LastLoad(items, m), bound)
  {
    var init, weight := items[..|items| - 1], items[|items| - 1].weight;
    LightestBelowAverage(init, m);
    AchievesAverage(items, assign, m, bound);
    AverageFits(m, LightLoad(init, m), weight, Load(init), Load(items), bound);
  }

  lemma AverageFits(m: nat, light: nat, weight: nat, before: nat, total: nat, bound: nat)
    requires m > 0 && 3 * weight <= bound && m * light <= before && before + weight == total && total <= m * bound
    ensures WithinThirds(m, light + weight, bound)
  {
    ThirdsLarge(m, light, weight, bound);
  }

  lemma LastItemWithin(items: seq<Item>, m: nat, assign: Assignment, bound: nat)
    requires items != [] && m > 0 && Descending(items) && Achieves(items, assign, m, bound)
    ensures WithinThirds(m, LastLoad(items, m), bound)
  {
    if 3 * items[|items| - 1].weight > bound {
      LastItemLarge(items, m, assign, bound);
    } else {
      LastItemSmall(items, m, assign, bound);
    }
  }

  lemma ReachedLast(items: seq<Item>, m: nat, k: nat) returns (n: nat)
    requires k < m
    ensures n <= |items|
    ensures Load(Greedy(items, m)[k]) == if n == 0 then 0 else LastLoad(items[..n], m)
  {
    n := LoadReached(items, m, k);
    if n > 0 {
      assert items[..n][..n - 1] == items[..n - 1];
    }
  }

  lemma PrefixDescends(items: seq<Item>, n: nat)
    requires n <= |items| && Descending(items)
    ensures Descending(items[..n])
  {
  }

  /** Placed heaviest first, every group stays within `4/3 - 1/(3m)` of what any other assignment achieves. */
  lemma DescendingCompetes(items: seq<Item>, m: nat, k: nat, assign: Assignment, bound: nat)
    requires k < m && Descending(items) && Achieves(items, assign, m, bound)
    ensures WithinThirds(m, Load(Greedy(items, m)[k]), bound)
  {
    var n := ReachedLast(items, m, k);
    if n > 0 {
      AchievesPrefix(items, assign, m, bound, n);
      PrefixDescends(items, n);
      LastItemWithin(items[..n], m, assign, bound);
    } else {
      ThirdsSmall(m, 0, bound);
    }
  }

  lemma ThirdsSmall(m: nat, load: nat, bound: nat)
    requires m > 0 && load <= bound
    ensures WithinThirds(m, load, bound)
  {
    Times(3 * m, load, bound);
    assert (4 * m - 1) * bound == 3 * m * bound + (m - 1) * bound;
  }

  lemma ThirdsLarge(m: nat, light: nat, weight: nat, bound: nat)
    requires m > 0 && 3 * weight <= bound && m * light + weight <= m * bound
    ensures WithinThirds(m, light + weight, bound)
  {
    Times(m - 1, 3 * weight, bound);
    assert 3 * m * (light + weight) == 3 * (m * light + weight) + (m - 1) * (3 * weight);
    assert (4 * m - 1) * bound == 3 * (m * bound) + (m - 1) * bound;
  }

  // ---------------------------------------------------------------- the split the planner makes

  /** The items, each with its group. */
  function Assigned(items: seq<Item>, assign: Assignment): (pairs: seq<(Item, nat)>)
    ensures |pairs| == |items| && forall i :: 0 <= i < |items| ==> pairs[i] == (items[i], assign(i))
  {
    seq(|items|, i requires 0 <= i < |items| => (items[i], assign(i)))
  }

  function ItemOf(pair: (Item, nat)): Item { pair.0 }

  function WeightOn(k: nat): ((Item, nat)) -> nat {
    (pair: (Item, nat)) => if pair.1 == k then pair.0.weight else 0
  }

  lemma {:induction false} LoadUnderTotals(items: seq<Item>, assign: Assignment, k: nat)
    ensures LoadUnder(items, assign, k) == Total(WeightOn(k), Assigned(items, assign))
  {
    if items != [] {
      var init := items[..|items| - 1];
      LoadUnderTotals(init, assign, k);
      assert Assigned(items, assign)[..|items| - 1] == Assigned(init, assign);
    }
  }

  /** However the items are sorted, their groups can be sorted along with them. */
  lemma AchievesSorted(order: Order<Item>, items: seq<Item>, assign: Assignment, m: nat, bound: nat)
    returns (other: Assignment)
    requires Achieves(items, assign, m, bound)
    ensures Achieves(Sort(order, items), other, m, bound)
  {
    var pairs := Assigned(items, assign);
    var sorted := Sort(Through(ItemOf, order), pairs);
    SortThrough(ItemOf, order, pairs);
    assert Map(ItemOf, pairs) == items;
    other := (i: nat) => if i < |sorted| then sorted[i].1 else 0;
    assert Assigned(Sort(order, items), other) == sorted;
    SortPermutes(Through(ItemOf, order), pairs);
    SortedGroups(pairs, sorted, m);
    forall k | 0 <= k < m
      ensures LoadUnder(Sort(order, items), other, k) <= bound
    {
      LoadUnderTotals(items, assign, k);
      LoadUnderTotals(Sort(order, items), other, k);
      TotalPermutes(WeightOn(k), pairs, sorted);
    }
  }

  lemma SortedGroups(pairs: seq<(Item, nat)>, sorted: seq<(Item, nat)>, m: nat)
    requires multiset(sorted) == multiset(pairs) && forall i :: 0 <= i < |pairs| ==> pairs[i].1 < m
    ensures forall i :: 0 <= i < |sorted| ==> sorted[i].1 < m
  {
    forall i | 0 <= i < |sorted|
      ensures sorted[i].1 < m
    {
      assert sorted[i] in multiset(pairs);
      assert sorted[i] in pairs;
    }
  }

  /**
   * Shard balance: whatever the items, the groups and the other assignment, the heaviest greedy group is at most
   * `2 - 1/m` and at most `4/3 - 1/(3m)` times the other assignment's heaviest group.
   */
  lemma ShardsCompete(leq: IdOrder, items: seq<Item>, m: nat, k: nat, assign: Assignment, bound: nat)
    requires TotalOrder(leq) && k < m && Achieves(items, assign, m, bound)
    ensures var load := Load(Groups(leq, items, m)[k]);
      m * load <= (2 * m - 1) * bound && 3 * m * load <= (4 * m - 1) * bound
  {
    var sorted := Sort(HeaviestFirst(leq), items);
    HeaviestFirstOrders(leq);
    SortSorts(HeaviestFirst(leq), items);
    var other := AchievesSorted(HeaviestFirst(leq), items, assign, m, bound);
    GreedyCompetes(sorted, m, k, other, bound);
    forall i, j | 0 <= i <= j < |sorted|
      ensures sorted[i].weight >= sorted[j].weight
    {
      assert i < j ==> Before(leq, sorted[i], sorted[j]);
    }
    DescendingCompetes(sorted, m, k, other, bound);
  }
}
