/** `CreateWorkOrderUseCase`: builds an order from its arguments, inserts it and saves. */
module CreateWorkOrder {
  import opened Seqs
  import opened OrderStatus
  import opened WorkOrders
  import opened Records
  import opened Persistence

  /**
   * `execute`. `id` and `now` stand for the `UUID()` and `Date()` the record initialiser
   * draws; a fresh `UUID()` is the id of no stored order. No argument is validated: any cost,
   * negative included, is stored as given.
   */
  method Execute(ctx: ModelContext, customerName: string, deviceDescription: string,
                 problemDescription: string, status: WorkOrderStatus := Received,
                 estimatedCost: real, id: nat, now: Timestamp)
    requires FreshKey(ctx.workOrders, OrderKey, id)
    modifies ctx`workOrders, ctx`commits
    ensures ctx.workOrders == old(ctx.workOrders) + [NewWorkOrder(id, customerName, deviceDescription,
              problemDescription, status, now, estimatedCost := estimatedCost)]
    ensures ctx.commits == old(ctx.commits) + 1
    ensures UniqueKeys(old(ctx.workOrders), OrderKey) ==> UniqueKeys(ctx.workOrders, OrderKey)
  {
    var order := NewWorkOrder(id, customerName, deviceDescription, problemDescription, status, now,
                              estimatedCost := estimatedCost);
    if UniqueKeys(ctx.workOrders, OrderKey) {
      AppendFreshKeepsUnique(ctx.workOrders, order, OrderKey);
    }
    ctx.workOrders := ctx.workOrders + [order];
    ctx.Save();
  }

  /** The inserted order carries the arguments, no `updatedAt`, and `received` unless told otherwise. */
  lemma CreatedOrderFields(customerName: string, deviceDescription: string, problemDescription: string,
                           estimatedCost: real, id: nat, now: Timestamp)
    ensures var o := NewWorkOrder(id, customerName, deviceDescription, problemDescription, Received, now,
                                  estimatedCost := estimatedCost);
      Status(o) == Received && o.updatedAt.None? && o.estimatedCost == estimatedCost
      && o.customerName == customerName && o.deviceDescription == deviceDescription
      && o.problemDescription == problemDescription && o.createdAt == now
  {
  }
}
