/** `CloseWorkOrderUseCase`: marks an order as delivered, once. */
module CloseWorkOrder {
  import opened Wrappers
  import opened Seqs
  import opened OrderStatus
  import opened WorkOrders
  import opened Records
  import opened Persistence

  /** The order as `execute` leaves it. */
  function Closed(o: WorkOrder, now: Timestamp): (r: WorkOrder)
    ensures Status(r) == Delivered
    ensures Status(o) == Delivered ==> r == o
    ensures Status(o) != Delivered ==> r.updatedAt == Some(now)
    ensures r.id == o.id && r.customerName == o.customerName
    ensures r.deviceDescription == o.deviceDescription && r.problemDescription == o.problemDescription
    ensures r.createdAt == o.createdAt && r.estimatedCost == o.estimatedCost
  {
    if Status(o) == Delivered then o
    else WithStatus(o, Delivered).(updatedAt := Some(now))
  }

  /** Closing a closed order changes nothing, whatever the clock says the second time. */
  lemma CloseIdempotent(o: WorkOrder, now: Timestamp, later: Timestamp)
    ensures Closed(Closed(o, now), later) == Closed(o, now)
  {
  }

  /**
   * `execute` on the order at position `index` of the store. An order that is already
   * delivered is left alone and nothing is saved.
   */
  method Execute(ctx: ModelContext, index: nat, now: Timestamp)
    requires index < |ctx.workOrders|
    modifies ctx`workOrders, ctx`commits
    ensures ctx.workOrders == old(ctx.workOrders)[index := Closed(old(ctx.workOrders[index]), now)]
    ensures ctx.commits == if Status(old(ctx.workOrders[index])) == Delivered
                           then old(ctx.commits) else old(ctx.commits) + 1
    ensures UniqueKeys(old(ctx.workOrders), OrderKey) ==> UniqueKeys(ctx.workOrders, OrderKey)
  {
    if UniqueKeys(ctx.workOrders, OrderKey) {
      ReplaceKeepsUnique(ctx.workOrders, index, Closed(ctx.workOrders[index], now), OrderKey);
    }
    var order := ctx.workOrders[index];
    if Status(order) == Delivered {
      return;
    }
    order := WithStatus(order, Delivered);
    order := order.(updatedAt := Some(now));
    ctx.workOrders := ctx.workOrders[index := order];
    ctx.Save();
  }
}
