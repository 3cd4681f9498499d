/** `GenerateInvoiceUseCase`: bills an order's estimated cost plus tax. */
module GenerateInvoice {
  import opened Wrappers
  import opened Seqs
  import opened WorkOrders
  import opened Records
  import opened Persistence

  const InvoicePrefix := "FAC-"

  /**
   * `generateInvoiceNumber(for:)`: the prefix followed by the formatted date and time,
   * which is passed in as `datePart`.
   */
  function GenerateInvoiceNumber(datePart: string): (n: string)
    ensures |n| == |InvoicePrefix| + |datePart|
    ensures n[..|InvoicePrefix|] == InvoicePrefix && n[|InvoicePrefix|..] == datePart
  {
    InvoicePrefix + datePart
  }

  /** Two invoice numbers are equal only when their date parts are. */
  lemma InvoiceNumberInjective(d1: string, d2: string)
    requires GenerateInvoiceNumber(d1) == GenerateInvoiceNumber(d2)
    ensures d1 == d2
  {
    assert d1 == GenerateInvoiceNumber(d1)[|InvoicePrefix|..];
  }

  /** The invoice `execute` builds for `order`; `id` and `now` stand for `UUID()` and `Date()`. */
  function BuildInvoice(order: WorkOrder, id: nat, taxRate: real, markAsPaid: bool,
                        now: Timestamp, datePart: string): (inv: Invoice)
    ensures inv.subtotal == order.estimatedCost
    ensures inv.taxAmount == order.estimatedCost * taxRate
    ensures inv.total == inv.subtotal + inv.taxAmount
    ensures inv.invoiceNumber == GenerateInvoiceNumber(datePart)
    ensures inv.workOrder == Some(order.id) && inv.isPaid == markAsPaid
    ensures inv.paymentMethod.None? && inv.notes.None?
    ensures inv.id == id && inv.issueDate == now
  {
    var subtotal := order.estimatedCost;
    var taxAmount := subtotal * taxRate;
    var total := subtotal + taxAmount;
    Invoice(id, GenerateInvoiceNumber(datePart), Some(order.id), now, subtotal, taxAmount, total,
            markAsPaid, None, None)
  }

  /** The total is the cost scaled by one plus the rate; tax never lowers it for non-negative inputs. */
  lemma TaxBounds(order: WorkOrder, id: nat, taxRate: real, markAsPaid: bool, now: Timestamp, datePart: string)
    ensures var inv := BuildInvoice(order, id, taxRate, markAsPaid, now, datePart);
      inv.total == order.estimatedCost * (1.0 + taxRate)
      && (order.estimatedCost >= 0.0 && taxRate >= 0.0 ==> inv.taxAmount >= 0.0 && inv.total >= inv.subtotal)
      && (taxRate == 0.0 ==> inv.total == inv.subtotal && inv.taxAmount == 0.0)
  {
  }

  /** With the default 16% rate, an order estimated at 1500 is billed 240 of tax and 1740 in all. */
  lemma DefaultRateExample(order: WorkOrder, id: nat, now: Timestamp, datePart: string)
    requires order.estimatedCost == 1500.0
    ensures BuildInvoice(order, id, 0.16, false, now, datePart).taxAmount == 240.0
    ensures BuildInvoice(order, id, 0.16, false, now, datePart).total == 1740.0
  {
  }

  /**
   * `execute(for:taxRate:markAsPaid:in:)` on the order at `orderIndex`. The order's status is
   * not checked and the order itself is not touched; one invoice is inserted and saved. The
   * invoice's `UUID()` is the id of no stored invoice.
   */
  method Execute(ctx: ModelContext, orderIndex: nat, taxRate: real := 0.16, markAsPaid: bool := false,
                 id: nat, now: Timestamp, datePart: string) returns (invoice: Invoice)
    requires orderIndex < |ctx.workOrders|
    requires FreshKey(ctx.invoices, InvoiceKey, id)
    modifies ctx`invoices, ctx`commits
    ensures invoice == BuildInvoice(ctx.workOrders[orderIndex], id, taxRate, markAsPaid, now, datePart)
    ensures ctx.invoices == old(ctx.invoices) + [invoice]
    ensures ctx.commits == old(ctx.commits) + 1
    ensures UniqueKeys(old(ctx.invoices), InvoiceKey) ==> UniqueKeys(ctx.invoices, InvoiceKey)
  {
    var order := ctx.workOrders[orderIndex];
    var subtotal := order.estimatedCost;
    var taxAmount := subtotal * taxRate;
    var total := subtotal + taxAmount;
    var invoiceNumber := GenerateInvoiceNumber(datePart);
    invoice := Invoice(id, invoiceNumber, Some(order.id), now, subtotal, taxAmount, total,
                       markAsPaid, None, None);
    if UniqueKeys(ctx.invoices, InvoiceKey) {
      AppendFreshKeepsUnique(ctx.invoices, invoice, InvoiceKey);
    }
    ctx.invoices := ctx.invoices + [invoice];
    ctx.Save();
  }
}
