/** `BillingListViewModel`: the paid filter and search over invoices, and the list rows. */
module BillingList {
  import opened Wrappers
  import opened Text
  import opened Seqs
  import opened WorkOrders
  import opened Records
  import opened Persistence

  /** `InvoiceListItem`, without the formatted date and total. */
  datatype InvoiceListItem = InvoiceListItem(
    id: nat,
    invoiceNumber: string,
    customerName: string,
    isPaid: bool)

  const NoCustomer := "Sin cliente"

  /** `invoice.workOrder`: the linked order, when it is still stored. */
  function LinkedOrder(inv: Invoice, orders: seq<WorkOrder>): (r: Option<WorkOrder>)
    ensures inv.workOrder.None? ==> r.None?
    ensures r.Some? ==> r.value in orders && Some(r.value.id) == inv.workOrder
  {
    match inv.workOrder
    case None => None
    case Some(id) =>
      match IndexOfOrder(orders, id)
      case None => None
      case Some(k) => Some(orders[k])
  }

  /**
   * The test `filteredItems` applies: the paid state when a filter is set, and, when the search
   * is not blank after trimming spaces, the lowercased (untrimmed) search in the invoice number
   * or in the linked order's customer; an invoice without an order is matched by number only.
   */
  predicate InvoiceMatches(paidFilter: Option<bool>, searchText: string, orders: seq<WorkOrder>, inv: Invoice) {
    && (paidFilter.Some? ==> inv.isPaid == paidFilter.value)
    && (!IsBlank(searchText, Whitespaces) ==>
          || Contains(Lowercased(inv.invoiceNumber), Lowercased(searchText))
          || (LinkedOrder(inv, orders).Some?
              && Contains(Lowercased(LinkedOrder(inv, orders).value.customerName), Lowercased(searchText))))
  }

  /** The invoices `filteredItems` keeps, in input order. */
  function Passing(paidFilter: Option<bool>, searchText: string, orders: seq<WorkOrder>, invoices: seq<Invoice>): (r: seq<Invoice>)
    ensures forall inv :: inv in r <==> inv in invoices && InvoiceMatches(paidFilter, searchText, orders, inv)
    ensures paidFilter.None? && IsBlank(searchText, Whitespaces) ==> r == invoices
  {
    var p := inv => InvoiceMatches(paidFilter, searchText, orders, inv);
    if paidFilter.None? && IsBlank(searchText, Whitespaces) then
      FilterAll(invoices, p);
      Filter(invoices, p)
    else
      Filter(invoices, p)
  }

  /** Each invoice kept by the filter occurs as often as in the input; the rest do not occur. */
  lemma PassingKeepsMultiplicity(paidFilter: Option<bool>, searchText: string, orders: seq<WorkOrder>, invoices: seq<Invoice>)
    ensures var r := Passing(paidFilter, searchText, orders, invoices);
      && IsSubsequence(r, invoices)
      && forall inv :: multiset(r)[inv] == if InvoiceMatches(paidFilter, searchText, orders, inv) then multiset(invoices)[inv] else 0
  {
    FilterKeepsPassing(invoices, inv => InvoiceMatches(paidFilter, searchText, orders, inv));
  }

  /** The row for one invoice. */
  function ToItem(inv: Invoice, orders: seq<WorkOrder>): (item: InvoiceListItem)
    ensures item.id == inv.id && item.invoiceNumber == inv.invoiceNumber && item.isPaid == inv.isPaid
    ensures LinkedOrder(inv, orders).None? ==> item.customerName == NoCustomer
    ensures LinkedOrder(inv, orders).Some? ==> item.customerName == LinkedOrder(inv, orders).value.customerName
  {
    var customerName := match LinkedOrder(inv, orders) case Some(o) => o.customerName case None => NoCustomer;
    InvoiceListItem(inv.id, inv.invoiceNumber, customerName, inv.isPaid)
  }

  /** `isPaid.toggle()` */
  function Toggled(inv: Invoice): (r: Invoice)
    ensures r.isPaid == !inv.isPaid && r.(isPaid := inv.isPaid) == inv
  {
    inv.(isPaid := !inv.isPaid)
  }

  /** Toggling twice restores the invoice. */
  lemma ToggleTwice(inv: Invoice)
    ensures Toggled(Toggled(inv)) == inv
  {
  }

  class BillingListViewModel {
    var searchText: string
    var paidFilter: Option<bool>

    constructor()
      ensures searchText == "" && paidFilter.None?
    {
      searchText := "";
      paidFilter := None;
    }

    /**
     * `filteredItems(from:)`: one row per passing invoice, in input order; with no paid
     * filter and a blank search, one row per invoice. `orders` resolves the invoices' links.
     */
    function FilteredItems(invoices: seq<Invoice>, orders: seq<WorkOrder>): (r: seq<InvoiceListItem>)
      reads this
      ensures var kept := Passing(paidFilter, searchText, orders, invoices);
        |r| == |kept| && forall i :: 0 <= i < |r| ==> r[i] == ToItem(kept[i], orders)
      ensures paidFilter.Some? ==> forall i :: 0 <= i < |r| ==> r[i].isPaid == paidFilter.value
      ensures paidFilter.None? && IsBlank(searchText, Whitespaces) ==>
                |r| == |invoices| && forall i :: 0 <= i < |r| ==> r[i] == ToItem(invoices[i], orders)
    {
      var kept := Passing(paidFilter, searchText, orders, invoices);
      assert forall i :: 0 <= i < |kept| ==> kept[i] in kept;
      Map(kept, inv => ToItem(inv, orders))
    }

    /** `togglePaid(_:in:)` on the invoice at `index`. */
    method TogglePaid(ctx: ModelContext, index: nat)
      requires index < |ctx.invoices|
      modifies ctx`invoices, ctx`commits
      ensures ctx.invoices == old(ctx.invoices)[index := Toggled(old(ctx.invoices[index]))]
      ensures ctx.commits == old(ctx.commits) + 1
      ensures UniqueKeys(old(ctx.invoices), InvoiceKey) ==> UniqueKeys(ctx.invoices, InvoiceKey)
    {
      if UniqueKeys(ctx.invoices, InvoiceKey) {
        ReplaceKeepsUnique(ctx.invoices, index, Toggled(ctx.invoices[index]), InvoiceKey);
      }
      var invoice := ctx.invoices[index];
      ctx.invoices := ctx.invoices[index := invoice.(isPaid := !invoice.isPaid)];
      ctx.Save();
    }

    /** `delete(_:in:)` on the invoice at `index`. */
    method Delete(ctx: ModelContext, index: nat)
      requires index < |ctx.invoices|
      modifies ctx`invoices, ctx`commits
      ensures ctx.invoices == RemoveAt(old(ctx.invoices), index)
      ensures ctx.commits == old(ctx.commits) + 1
      ensures UniqueKeys(old(ctx.invoices), InvoiceKey) ==> UniqueKeys(ctx.invoices, InvoiceKey)
    {
      if UniqueKeys(ctx.invoices, InvoiceKey) {
        RemoveAtKeepsUnique(ctx.invoices, index, InvoiceKey);
      }
      ctx.invoices := RemoveAt(ctx.invoices, index);
      ctx.Save();
    }

    /** `setPaidFilter(_:)` */
    method SetPaidFilter(paid: Option<bool>)
      modifies this`paidFilter
      ensures paidFilter == paid
    {
      paidFilter := paid;
    }
  }
}
