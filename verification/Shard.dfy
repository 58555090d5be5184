/**
 * The longest-first greedy split (`shardOf` in scripts/ci/check-plan.ts, `flutterTestFiles` in scripts/ci/suites.ts):
 * items sorted by weight, heaviest first, each put on the first group that is lightest at that moment.
 */
module Shard {
  import opened Sorting

  /** A task with its estimate, or a test file with its size. */
  datatype Item = Item(id: string, weight: nat)

  /** The order of ids that breaks ties (`localeCompare`): any total order. */
  type IdOrder = (string, string) -> bool

  ghost predicate TotalOrder(leq: IdOrder) {
    && (forall a, b :: leq(a, b) || leq(b, a))
    && (forall a, b :: leq(a, b) && leq(b, a) ==> a == b)
    && (forall a, b, c :: leq(a, b) && leq(b, c) ==> leq(a, c))
  }

  /** Heavier first, then by id. */
  predicate Before(leq: IdOrder, a: Item, b: Item) {
    a.weight > b.weight || (a.weight == b.weight && leq(a.id, b.id))
  }

  function HeaviestFirst(leq: IdOrder): Order<Item> {
    (a, b) => Before(leq, a, b)
  }

  lemma HeaviestFirstOrders(leq: IdOrder)
    requires TotalOrder(leq)
    ensures Preorder(HeaviestFirst(leq))
    ensures forall a, b :: HeaviestFirst(leq)(a, b) && HeaviestFirst(leq)(b, a) ==> a == b
  {
  }

  function Load(group: seq<Item>): nat {
    if group == [] then 0 else Load(group[..|group| - 1]) + group[|group| - 1].weight
  }

  /** The first of the first `n` groups that none of them is lighter than. */
  function Lightest(groups: seq<seq<Item>>, n: nat): (k: nat)
    requires 0 < n <= |groups|
    ensures k < n
    ensures forall i :: 0 <= i < n ==> Load(groups[k]) <= Load(groups[i])
    ensures forall i :: 0 <= i < k ==> Load(groups[k]) < Load(groups[i])
  {
    if n == 1 then 0
    else
      var best := Lightest(groups, n - 1);
      if Load(groups[n - 1]) < Load(groups[best]) then n - 1 else best
  }

  function Place(groups: seq<seq<Item>>, x: Item): (placed: seq<seq<Item>>)
    requires groups != []
    ensures |placed| == |groups|
  {
    var k := Lightest(groups, |groups|);
    groups[k := groups[k] + [x]]
  }

  /** Place items in the order given on `m` groups. */
  function Greedy(items: seq<Item>, m: nat): (groups: seq<seq<Item>>)
    requires m > 0
    ensures |groups| == m
  {
    if items == [] then seq(m, i => []) else Place(Greedy(items[..|items| - 1], m), items[|items| - 1])
  }

  function Groups(leq: IdOrder, items: seq<Item>, m: nat): (groups: seq<seq<Item>>)
    requires m > 0
    ensures |groups| == m
  {
    Greedy(Sort(HeaviestFirst(leq), items), m)
  }

  /** The groups do not depend on the order the items come in, so separate jobs that discover the same items agree. */
  lemma GroupsIgnoreOrder(leq: IdOrder, items: seq<Item>, other: seq<Item>, m: nat)
    requires TotalOrder(leq) && m > 0 && multiset(items) == multiset(other)
    ensures Groups(leq, items, m) == Groups(leq, other, m)
  {
    var order := HeaviestFirst(leq);
    HeaviestFirstOrders(leq);
    SortSorts(order, items);
    SortSorts(order, other);
    SortPermutes(order, items);
    SortPermutes(order, other);
    SortedUnique(order, Sort(order, items), Sort(order, other));
  }

  /** Heaviest first, and items of one weight by their ids. */
  predicate ListedFirst(leq: IdOrder, s: seq<Item>) {
    forall i, j :: 0 <= i < j < |s| ==>
      s[i].weight > s[j].weight || (s[i].weight == s[j].weight && leq(s[i].id, s[j].id))
  }

  /** The groups are those of placing the items one by one, listed heaviest first and then by id. */
  lemma GroupsAre(leq: IdOrder, items: seq<Item>, listed: seq<Item>, m: nat)
    requires TotalOrder(leq) && m > 0 && multiset(listed) == multiset(items) && ListedFirst(leq, listed)
    ensures Groups(leq, items, m) == Greedy(listed, m)
  {
    var order := HeaviestFirst(leq);
    HeaviestFirstOrders(leq);
    SortSorts(order, items);
    SortPermutes(order, items);
    SortedUnique(order, Sort(order, items), listed);
  }

  /** Placing one more item: it goes at the end of the first of the groups that weigh least. */
  lemma GreedyStep(items: seq<Item>, x: Item, m: nat) returns (k: nat)
    requires m > 0
    ensures k < m && Greedy(items + [x], m) == Greedy(items, m)[k := Greedy(items, m)[k] + [x]]
    ensures forall i :: 0 <= i < m ==> Load(Greedy(items, m)[k]) <= Load(Greedy(items, m)[i])
    ensures forall i :: 0 <= i < k ==> Load(Greedy(items, m)[k]) < Load(Greedy(items, m)[i])
  {
    assert (items + [x])[..|items|] == items;
    k := Lightest(Greedy(items, m), m);
  }

  // ---------------------------------------------------------------- nothing lost, nothing twice

  function Members(groups: seq<seq<Item>>): multiset<Item> {
    if groups == [] then multiset{} else Members(groups[..|groups| - 1]) + multiset(groups[|groups| - 1])
  }

  lemma {:induction false} MembersPut(groups: seq<seq<Item>>, k: nat, x: Item)
    requires k < |groups|
    ensures Members(groups[k := groups[k] + [x]]) == Members(groups) + multiset{x}
  {
    var last := |groups| - 1;
    var put := groups[k := groups[k] + [x]];
    if k == last {
      assert put[..last] == groups[..last];
    } else {
      assert put[..last] == groups[..last][k := groups[..last][k] + [x]];
      MembersPut(groups[..last], k, x);
    }
  }

  lemma {:induction false} MembersEmpty(m: nat)
    ensures Members(seq(m, i => [])) == multiset{}
  {
    if m != 0 {
      assert seq(m, i => [])[..m - 1] == seq<seq<Item>>(m - 1, i => []);
      MembersEmpty(m - 1);
    }
  }

  lemma PlaceMembers(groups: seq<seq<Item>>, x: Item)
    requires groups != []
    ensures Members(Place(groups, x)) == Members(groups) + multiset{x}
  {
    MembersPut(groups, Lightest(groups, |groups|), x);
  }

  lemma LastMember(items: seq<Item>)
    requires items != []
    ensures multiset(items) == multiset(items[..|items| - 1]) + multiset{items[|items| - 1]}
  {
    assert items == items[..|items| - 1] + [items[|items| - 1]];
  }

  lemma {:induction false} GreedyConserves(items: seq<Item>, m: nat)
    requires m > 0
    ensures Members(Greedy(items, m)) == multiset(items)
  {
    if items == [] {
      MembersEmpty(m);
    } else {
      GreedyConserves(items[..|items| - 1], m);
      PlaceMembers(Greedy(items[..|items| - 1], m), items[|items| - 1]);
      LastMember(items);
    }
  }

  /** Every item is in the groups as often as it was given. */
  lemma GroupsConserve(leq: IdOrder, items: seq<Item>, m: nat)
    requires m > 0
    ensures Members(Groups(leq, items, m)) == multiset(items)
  {
    SortPermutes(HeaviestFirst(leq), items);
    GreedyConserves(Sort(HeaviestFirst(leq), items), m);
  }
}
