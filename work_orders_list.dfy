/** `WorkOrdersListViewModel`: the status filter and search over the orders a view shows. */
module WorkOrdersList {
  import opened Wrappers
  import opened Text
  import opened Seqs
  import opened OrderStatus
  import opened WorkOrders
  import opened Records
  import opened Persistence

  /**
   * The test `filteredOrders` applies to one order: the status through the getter, and the
   * search, when not empty, against the lowercased customer or device, never the problem.
   * The search is not trimmed.
   */
  predicate ListMatches(selectedStatus: Option<WorkOrderStatus>, searchText: string, o: WorkOrder) {
    && (selectedStatus.Some? ==> Status(o) == selectedStatus.value)
    && (searchText != [] ==>
          Contains(Lowercased(o.customerName), Lowercased(searchText))
          || Contains(Lowercased(o.deviceDescription), Lowercased(searchText)))
  }

  /** The problem text plays no part in the list search. */
  lemma ProblemNotSearched(selectedStatus: Option<WorkOrderStatus>, searchText: string, o: WorkOrder, problem: string)
    ensures ListMatches(selectedStatus, searchText, o)
            == ListMatches(selectedStatus, searchText, o.(problemDescription := problem))
  {
  }

  /** A search of one space is applied literally: it hides an order with no space in its names. */
  lemma SpaceSearchIsLiteral(o: WorkOrder)
    requires o.customerName == "Ana" && o.deviceDescription == "HP"
    ensures !ListMatches(None, " ", o)
  {
    assert Lowercased("Ana") == "ana" && Lowercased("HP") == "hp" && Lowercased(" ") == " ";
    assert !Contains("", " ");
    assert !Contains("a", " ") && !Contains("na", " ") && !Contains("ana", " ");
    assert !Contains("p", " ") && !Contains("hp", " ");
  }

  class WorkOrdersListViewModel {
    var searchText: string
    var selectedStatus: Option<WorkOrderStatus>

    constructor()
      ensures searchText == "" && selectedStatus.None?
    {
      searchText := "";
      selectedStatus := None;
    }

    /**
     * `filteredOrders(from:)`: the orders that pass, each as often as it is stored, in their
     * original order; everything when there is neither a status nor a search.
     */
    function FilteredOrders(orders: seq<WorkOrder>): (r: seq<WorkOrder>)
      reads this
      ensures forall o :: o in r <==> o in orders && ListMatches(selectedStatus, searchText, o)
      ensures selectedStatus.Some? ==> forall i :: 0 <= i < |r| ==> Status(r[i]) == selectedStatus.value
      ensures forall o :: multiset(r)[o] == if ListMatches(selectedStatus, searchText, o) then multiset(orders)[o] else 0
      ensures IsSubsequence(r, orders)
      ensures selectedStatus.None? && searchText == [] ==> r == orders
    {
      var status, text := selectedStatus, searchText;
      var p := o => ListMatches(status, text, o);
      var r := Filter(orders, p);
      FilterKeepsPassing(orders, p);
      assert forall i :: 0 <= i < |r| ==> r[i] in r;
      if selectedStatus.None? && searchText == [] then
        FilterAll(orders, p);
        r
      else
        r
    }

    /** `setStatusFilter(_:)` */
    method SetStatusFilter(status: Option<WorkOrderStatus>)
      modifies this`selectedStatus
      ensures selectedStatus == status
    {
      selectedStatus := status;
    }

    /** `delete(order:in:)` on the order at `index`. */
    method Delete(ctx: ModelContext, index: nat)
      requires index < |ctx.workOrders|
      modifies ctx`workOrders, ctx`commits
      ensures ctx.workOrders == RemoveAt(old(ctx.workOrders), index)
      ensures ctx.commits == old(ctx.commits) + 1
      ensures UniqueKeys(old(ctx.workOrders), OrderKey) ==> UniqueKeys(ctx.workOrders, OrderKey)
    {
      if UniqueKeys(ctx.workOrders, OrderKey) {
        RemoveAtKeepsUnique(ctx.workOrders, index, OrderKey);
      }
      ctx.workOrders := RemoveAt(ctx.workOrders, index);
      ctx.Save();
    }
  }
}
