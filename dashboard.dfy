/** The dashboard's figures: open orders, estimated revenue and the latest orders. */
module Dashboard {
  import opened Seqs
  import opened OrderStatus
  import opened WorkOrders
  import opened FilterWorkOrders

  /** An order is open until it is delivered; the status getter, with its fallback, decides. */
  predicate IsOpen(o: WorkOrder) {
    Status(o) != Delivered
  }

  /** `openOrdersCount` */
  function OpenOrdersCount(orders: seq<WorkOrder>): (n: nat)
    ensures n <= |orders|
    ensures n == 0 <==> forall o :: o in orders ==> !IsOpen(o)
  {
    var open := Filter(orders, IsOpen);
    assert open != [] ==> open[0] in open;
    |open|
  }

  /** The count over two lists of orders is the sum of their counts. */
  lemma OpenOrdersCountAppend(a: seq<WorkOrder>, b: seq<WorkOrder>)
    ensures OpenOrdersCount(a + b) == OpenOrdersCount(a) + OpenOrdersCount(b)
  {
    FilterAppend(a, b, IsOpen);
  }

  /** One order counts once exactly when it is open. */
  lemma OpenOrdersCountSingle(o: WorkOrder)
    ensures OpenOrdersCount([o]) == if IsOpen(o) then 1 else 0
  {
    assert [o][1..] == [];
  }

  function Cost(o: WorkOrder): real {
    o.estimatedCost
  }

  /** `estimatedRevenue`: the estimated costs of the open orders, added up in order. */
  function EstimatedRevenue(orders: seq<WorkOrder>): real {
    Sum(Map(Filter(orders, IsOpen), Cost))
  }

  /** The revenue over two lists of orders is the sum of their revenues. */
  lemma {:induction false} RevenueAppend(a: seq<WorkOrder>, b: seq<WorkOrder>)
    ensures EstimatedRevenue(a + b) == EstimatedRevenue(a) + EstimatedRevenue(b)
  {
    FilterAppend(a, b, IsOpen);
    var fa, fb := Filter(a, IsOpen), Filter(b, IsOpen);
    MapAppend(fa, fb, Cost);
    SumAppend(Map(fa, Cost), Map(fb, Cost));
  }

  /** One order adds its cost exactly when it is open. */
  lemma RevenueSingle(o: WorkOrder)
    ensures EstimatedRevenue([o]) == if IsOpen(o) then o.estimatedCost else 0.0
  {
    assert [o][1..] == [];
    if IsOpen(o) {
      assert Filter([o], IsOpen) == [o];
      assert Map([o], Cost) == [o.estimatedCost];
      assert [o.estimatedCost][..0] == [];
      assert Sum([o.estimatedCost]) == Sum([]) + o.estimatedCost;
    } else {
      assert Filter([o], IsOpen) == [];
    }
  }

  /** Changing the cost of a delivered order leaves the revenue as it was. */
  lemma RevenueIgnoresDeliveredCosts(orders: seq<WorkOrder>, k: nat, cost: real)
    requires k < |orders| && !IsOpen(orders[k])
    ensures EstimatedRevenue(orders[k := orders[k].(estimatedCost := cost)]) == EstimatedRevenue(orders)
  {
    var changed := orders[k := orders[k].(estimatedCost := cost)];
    assert orders == orders[..k] + [orders[k]] + orders[k + 1..];
    assert changed == orders[..k] + [changed[k]] + orders[k + 1..];
    RevenueAppend(orders[..k] + [orders[k]], orders[k + 1..]);
    RevenueAppend(orders[..k], [orders[k]]);
    RevenueAppend(orders[..k] + [changed[k]], orders[k + 1..]);
    RevenueAppend(orders[..k], [changed[k]]);
    RevenueSingle(orders[k]);
    RevenueSingle(changed[k]);
  }

  /** With every estimated cost non-negative, so is the revenue. */
  lemma {:induction false} RevenueNonNegative(orders: seq<WorkOrder>)
    requires forall o :: o in orders ==> o.estimatedCost >= 0.0
    ensures EstimatedRevenue(orders) >= 0.0
    decreases |orders|
  {
    if orders != [] {
      var last := |orders| - 1;
      assert orders == orders[..last] + [orders[last]];
      RevenueAppend(orders[..last], [orders[last]]);
      RevenueSingle(orders[last]);
      RevenueNonNegative(orders[..last]);
    }
  }

  /** The count depends only on which orders are stored, not on their order. */
  lemma OpenOrdersCountPermutation(a: seq<WorkOrder>, b: seq<WorkOrder>)
    requires multiset(a) == multiset(b)
    ensures OpenOrdersCount(a) == OpenOrdersCount(b)
  {
    FilterKeepsPassing(a, IsOpen);
    FilterKeepsPassing(b, IsOpen);
    var fa, fb := Filter(a, IsOpen), Filter(b, IsOpen);
    assert multiset(fa) == multiset(fb);
    assert |fa| == |multiset(fa)| && |fb| == |multiset(fb)|;
  }

  /** The revenue depends only on which orders are stored, not on their order. */
  lemma {:induction false} RevenuePermutation(a: seq<WorkOrder>, b: seq<WorkOrder>)
    requires multiset(a) == multiset(b)
    ensures EstimatedRevenue(a) == EstimatedRevenue(b)
    decreases |a|
  {
    if a == [] {
      assert |b| == |multiset(b)| == 0;
    } else {
      var n := |a| - 1;
      var x := a[n];
      assert a == a[..n] + [x];
      assert x in multiset(b);
      var i :| 0 <= i < |b| && b[i] == x;
      var rest := b[..i] + b[i + 1..];
      assert b == b[..i] + [x] + b[i + 1..];
      assert multiset(a) == multiset(a[..n]) + multiset{x};
      assert multiset(b) == multiset(b[..i]) + multiset{x} + multiset(b[i + 1..]);
      assert multiset(rest) == multiset(b[..i]) + multiset(b[i + 1..]);
      assert multiset(a[..n]) == multiset(a) - multiset{x};
      assert multiset(rest) == multiset(b) - multiset{x};
      RevenuePermutation(a[..n], rest);
      RevenueAppend(a[..n], [x]);
      RevenueAppend(b[..i] + [x], b[i + 1..]);
      RevenueAppend(b[..i], [x]);
      RevenueAppend(b[..i], b[i + 1..]);
    }
  }

  /** The figures over the view's newest-first list equal the figures over the store. */
  lemma FiguresIgnoreSort(store: seq<WorkOrder>)
    ensures OpenOrdersCount(SortNewestFirst(store)) == OpenOrdersCount(store)
    ensures EstimatedRevenue(SortNewestFirst(store)) == EstimatedRevenue(store)
  {
    OpenOrdersCountPermutation(SortNewestFirst(store), store);
    RevenuePermutation(SortNewestFirst(store), store);
  }

  /** The dashboard lists at most this many orders. */
  const RecentLimit := 5

  /** `workOrders.prefix(5)`, where the query sorts the orders newest first. */
  function RecentOrders(store: seq<WorkOrder>): (r: seq<WorkOrder>)
    ensures |r| == if |store| < RecentLimit then |store| else RecentLimit
    ensures r == SortNewestFirst(store)[..|r|]
    ensures NewestFirst(r)
    ensures forall o :: o in r ==> o in store
  {
    var sorted := SortNewestFirst(store);
    SortIsNewestFirst(store);
    assert forall o :: o in sorted <==> o in multiset(sorted);
    var n := if |sorted| < RecentLimit then |sorted| else RecentLimit;
    assert forall o :: o in sorted[..n] ==> o in sorted;
    sorted[..n]
  }
}
