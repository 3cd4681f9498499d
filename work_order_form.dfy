/** `WorkOrderFormViewModel`: the create / edit form of an order. */
module WorkOrderForm {
  import opened Wrappers
  import opened Text
  import opened Seqs
  import opened Numbers
  import opened OrderStatus
  import opened WorkOrders
  import opened Records
  import opened Persistence

  /** An edited order: the five form values set, the clock stamped, everything else kept. */
  function EditedOrder(o: WorkOrder, customerName: string, deviceDescription: string,
                       problemDescription: string, status: WorkOrderStatus, cost: real,
                       now: Timestamp): (r: WorkOrder)
    ensures r.customerName == customerName && r.deviceDescription == deviceDescription
    ensures r.problemDescription == problemDescription && Status(r) == status
    ensures r.estimatedCost == cost && r.updatedAt == Some(now)
    ensures r.id == o.id && r.createdAt == o.createdAt
  {
    WithStatus(o.(customerName := customerName, deviceDescription := deviceDescription,
                  problemDescription := problemDescription, estimatedCost := cost), status)
      .(updatedAt := Some(now))
  }

  /**
   * The orders after a save that parsed `cost`. A form that edits inserts nothing and changes
   * only the first stored order with the id it was opened on, if there still is one (with
   * unique ids, that order: `EditRewritesOpenedOrder`); a form that creates appends one order
   * carrying the form values.
   */
  function SavedOrders(store: seq<WorkOrder>, existing: Option<nat>, customerName: string,
                       deviceDescription: string, problemDescription: string,
                       status: WorkOrderStatus, cost: real, now: Timestamp, newId: nat): (r: seq<WorkOrder>)
    ensures existing.Some? ==> |r| == |store|
    ensures existing.Some? ==> forall k :: 0 <= k < |store| && IndexOfOrder(store, existing.value) != Some(k)
                                          ==> r[k] == store[k]
    ensures existing.Some? && IndexOfOrder(store, existing.value).Some? ==>
              var k := IndexOfOrder(store, existing.value).value;
              r[k] == EditedOrder(store[k], customerName, deviceDescription, problemDescription, status, cost, now)
    ensures existing.None? ==> |r| == |store| + 1 && r[..|store|] == store
    ensures existing.None? ==> r[|store|] == NewWorkOrder(newId, customerName, deviceDescription,
                                 problemDescription, status, now, estimatedCost := cost)
  {
    match existing
    case Some(id) =>
      (match IndexOfOrder(store, id)
       case None => store
       case Some(k) =>
         store[k := EditedOrder(store[k], customerName, deviceDescription, problemDescription, status, cost, now)])
    case None =>
      store + [NewWorkOrder(newId, customerName, deviceDescription, problemDescription, status, now,
                            estimatedCost := cost)]
  }

  /** With unique ids, a form opened on the stored order at `k` rewrites that order and no other. */
  lemma EditRewritesOpenedOrder(store: seq<WorkOrder>, k: nat, customerName: string,
                                deviceDescription: string, problemDescription: string,
                                status: WorkOrderStatus, cost: real, now: Timestamp, newId: nat)
    requires UniqueKeys(store, OrderKey) && k < |store|
    ensures SavedOrders(store, Some(store[k].id), customerName, deviceDescription, problemDescription,
                        status, cost, now, newId)
            == store[k := EditedOrder(store[k], customerName, deviceDescription, problemDescription,
                                      status, cost, now)]
  {
    UniqueOrderIndex(store, k);
  }

  /** A save keeps the stored ids unique, given a fresh id for a created order. */
  lemma SavedOrdersKeepIdsUnique(store: seq<WorkOrder>, existing: Option<nat>, customerName: string,
                                 deviceDescription: string, problemDescription: string,
                                 status: WorkOrderStatus, cost: real, now: Timestamp, newId: nat)
    requires UniqueKeys(store, OrderKey)
    requires existing.None? ==> FreshKey(store, OrderKey, newId)
    ensures UniqueKeys(SavedOrders(store, existing, customerName, deviceDescription, problemDescription,
                                   status, cost, now, newId), OrderKey)
  {
    if existing.None? {
      AppendFreshKeepsUnique(store, NewWorkOrder(newId, customerName, deviceDescription,
                                                 problemDescription, status, now, estimatedCost := cost), OrderKey);
    } else if IndexOfOrder(store, existing.value).Some? {
      var k := IndexOfOrder(store, existing.value).value;
      ReplaceKeepsUnique(store, k, EditedOrder(store[k], customerName, deviceDescription,
                                               problemDescription, status, cost, now), OrderKey);
    }
  }

  class WorkOrderFormViewModel {
    var customerName: string
    var deviceDescription: string
    var problemDescription: string
    var status: WorkOrderStatus
    var estimatedCostText: string
    var isEditing: bool
    /** The id of the order being edited. */
    var existingOrder: Option<nat>

    /** `init(order: nil)`: an empty form for a new order. */
    constructor New()
      ensures customerName == "" && deviceDescription == "" && problemDescription == ""
      ensures status == Received && estimatedCostText == ""
      ensures !isEditing && existingOrder.None?
      ensures Title() == "Nueva orden"
    {
      customerName := "";
      deviceDescription := "";
      problemDescription := "";
      status := Received;
      estimatedCostText := "";
      isEditing := false;
      existingOrder := None;
    }

    /** `init(order:)`; `costText` is `String(order.estimatedCost)`. */
    constructor Edit(order: WorkOrder, costText: string)
      ensures existingOrder == Some(order.id) && isEditing
      ensures customerName == order.customerName && deviceDescription == order.deviceDescription
      ensures problemDescription == order.problemDescription && status == Status(order)
      ensures estimatedCostText == costText
      ensures Title() == "Editar orden"
    {
      existingOrder := Some(order.id);
      isEditing := true;
      customerName := order.customerName;
      deviceDescription := order.deviceDescription;
      problemDescription := order.problemDescription;
      status := Status(order);
      estimatedCostText := costText;
    }

    /** `title` */
    function Title(): string
      reads this
    {
      if isEditing then "Editar orden" else "Nueva orden"
    }

    /** `canSave`: the three texts are not blank and the cost parses. */
    predicate CanSave()
      reads this
    {
      && !IsBlank(customerName, WhitespacesAndNewlines)
      && !IsBlank(deviceDescription, WhitespacesAndNewlines)
      && !IsBlank(problemDescription, WhitespacesAndNewlines)
      && ParseDouble(estimatedCostText).Some?
    }

    /**
     * `save(in:)`. Only the cost parse guards it: the texts are saved as they are, blank or
     * not, and an unparsable cost leaves the store alone and saves nothing. `newId` and `now`
     * stand for the new order's `UUID()`, which no stored order has, and for `Date()`.
     */
    method Save(ctx: ModelContext, now: Timestamp, newId: nat)
      requires existingOrder.None? ==> FreshKey(ctx.workOrders, OrderKey, newId)
      modifies ctx`workOrders, ctx`commits
      ensures ParseDouble(estimatedCostText).None? ==>
                ctx.workOrders == old(ctx.workOrders) && ctx.commits == old(ctx.commits)
      ensures ParseDouble(estimatedCostText).Some? ==>
                ctx.workOrders == SavedOrders(old(ctx.workOrders), existingOrder, customerName,
                  deviceDescription, problemDescription, status, ParseDouble(estimatedCostText).value,
                  now, newId)
                && ctx.commits == old(ctx.commits) + 1
      ensures UniqueKeys(old(ctx.workOrders), OrderKey) ==> UniqueKeys(ctx.workOrders, OrderKey)
    {
      var parsed := ParseDouble(estimatedCostText);
      if parsed.None? {
        return;
      }
      var cost := parsed.value;
      if UniqueKeys(ctx.workOrders, OrderKey) {
        SavedOrdersKeepIdsUnique(ctx.workOrders, existingOrder, customerName, deviceDescription,
                                 problemDescription, status, cost, now, newId);
      }

      match existingOrder {
        case Some(id) =>
          var found := IndexOfOrder(ctx.workOrders, id);
          if found.Some? {
            var order := ctx.workOrders[found.value];
            order := order.(customerName := customerName);
            order := order.(deviceDescription := deviceDescription);
            order := order.(problemDescription := problemDescription);
            order := WithStatus(order, status);
            order := order.(estimatedCost := cost);
            order := order.(updatedAt := Some(now));
            ctx.workOrders := ctx.workOrders[found.value := order];
          }
        case None =>
          var newOrder := NewWorkOrder(newId, customerName, deviceDescription, problemDescription, status,
                                       now, estimatedCost := cost);
          ctx.workOrders := ctx.workOrders + [newOrder];
      }

      ctx.Save();
    }
  }
}
