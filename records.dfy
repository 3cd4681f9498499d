/**
 * Records without behaviour of their own: invoices, customers, inventory items and the
 * business settings. Identifiers stand for UUIDs, dates are timestamps, amounts are reals.
 */
module Records {
  import opened Wrappers
  import opened Numbers
  import opened Seqs
  import opened WorkOrders

  /**
   * An invoice. `workOrder` is the optional relationship to an order, kept as that
   * order's id; it resolves to nothing once the order is gone.
   */
  datatype Invoice = Invoice(
    id: nat,
    invoiceNumber: string,
    workOrder: Option<nat>,
    issueDate: Timestamp,
    subtotal: real,
    taxAmount: real,
    total: real,
    isPaid: bool,
    paymentMethod: Option<string>,
    notes: Option<string>)

  /** A customer of the shop. */
  datatype Customer = Customer(
    id: nat,
    name: string,
    phone: Option<string>,
    email: Option<string>,
    address: Option<string>)

  /** A stock item, with the fields the inventory screens read and write. */
  datatype InventoryItem = InventoryItem(
    id: nat,
    sku: string,
    name: string,
    category: Option<string>,
    quantity: Int64,
    minimumStock: Int64,
    unitCost: real,
    location: Option<string>,
    notes: Option<string>,
    updatedAt: Option<Timestamp>)

  /** The business profile and default tax rate. */
  datatype AppSettings = AppSettings(
    businessName: string,
    taxId: string,
    address: string,
    phone: string,
    email: string,
    defaultTaxRate: real,
    updatedAt: Timestamp)

  /** `AppSettings()`: the record created when none exists yet. */
  function DefaultSettings(now: Timestamp): AppSettings {
    AppSettings("Repair Manager", "", "", "", "", 0.16, now)
  }

  /** The stored form of an optional text field: the empty text is stored as nothing. */
  function NilIfEmpty(s: string): (r: Option<string>)
    ensures r.None? <==> s == []
    ensures r.Some? ==> r.value == s
  {
    if s == [] then None else Some(s)
  }

  /** A form shows a missing text as empty, and saving it back restores the field. */
  lemma NilIfEmptyRoundTrip(field: Option<string>)
    requires field != Some([])
    ensures NilIfEmpty(field.GetOr([])) == field
  {
  }

  /** The unique keys of the stored records: their `@Attribute(.unique)` ids. */
  function OrderKey(o: WorkOrder): nat { o.id }
  function InvoiceKey(inv: Invoice): nat { inv.id }
  function ItemKey(item: InventoryItem): nat { item.id }
  function CustomerKey(c: Customer): nat { c.id }

  /** The first stored order with the given id: how a relationship or a kept reference resolves. */
  function IndexOfOrder(orders: seq<WorkOrder>, id: nat): (r: Option<nat>)
    ensures r.Some? ==> r.value < |orders| && orders[r.value].id == id
    ensures r.Some? ==> forall k :: 0 <= k < r.value ==> orders[k].id != id
    ensures r.None? ==> forall k :: 0 <= k < |orders| ==> orders[k].id != id
  {
    FirstIndex(orders, (o: WorkOrder) => o.id == id)
  }

  /** The first stored inventory item with the given id. */
  function IndexOfItem(items: seq<InventoryItem>, id: nat): (r: Option<nat>)
    ensures r.Some? ==> r.value < |items| && items[r.value].id == id
    ensures r.Some? ==> forall k :: 0 <= k < r.value ==> items[k].id != id
    ensures r.None? ==> forall k :: 0 <= k < |items| ==> items[k].id != id
  {
    FirstIndex(items, (it: InventoryItem) => it.id == id)
  }

  /** The first stored customer with the given id. */
  function IndexOfCustomer(customers: seq<Customer>, id: nat): (r: Option<nat>)
    ensures r.Some? ==> r.value < |customers| && customers[r.value].id == id
    ensures r.Some? ==> forall k :: 0 <= k < r.value ==> customers[k].id != id
    ensures r.None? ==> forall k :: 0 <= k < |customers| ==> customers[k].id != id
  {
    FirstIndex(customers, (c: Customer) => c.id == id)
  }

  /** With unique ids, looking up a stored order's id finds that very order. */
  lemma UniqueOrderIndex(orders: seq<WorkOrder>, k: nat)
    requires UniqueKeys(orders, OrderKey) && k < |orders|
    ensures IndexOfOrder(orders, orders[k].id) == Some(k)
  {
    var r := IndexOfOrder(orders, orders[k].id);
    assert r.Some? && OrderKey(orders[r.value]) == OrderKey(orders[k]);
  }

  /** With unique ids, looking up a stored item's id finds that very item. */
  lemma UniqueItemIndex(items: seq<InventoryItem>, k: nat)
    requires UniqueKeys(items, ItemKey) && k < |items|
    ensures IndexOfItem(items, items[k].id) == Some(k)
  {
    var r := IndexOfItem(items, items[k].id);
    assert r.Some? && ItemKey(items[r.value]) == ItemKey(items[k]);
  }

  /** With unique ids, looking up a stored customer's id finds that very customer. */
  lemma UniqueCustomerIndex(customers: seq<Customer>, k: nat)
    requires UniqueKeys(customers, CustomerKey) && k < |customers|
    ensures IndexOfCustomer(customers, customers[k].id) == Some(k)
  {
    var r := IndexOfCustomer(customers, customers[k].id);
    assert r.Some? && CustomerKey(customers[r.value]) == CustomerKey(customers[k]);
  }
}
