/**
 * The SwiftData `ModelContext`: one sequence of records per entity and a count of committed
 * saves. Model objects are values here; an operation on a fetched object names its position
 * in the store, and a kept reference is the record's id.
 */
module Persistence {
  import opened WorkOrders
  import opened Records
  import opened AuthUsers

  class ModelContext {
    var workOrders: seq<WorkOrder>
    var invoices: seq<Invoice>
    var authUsers: seq<AuthUser>
    var settings: seq<AppSettings>
    var customers: seq<Customer>
    var inventoryItems: seq<InventoryItem>
    /** The number of `save()` calls so far. */
    var commits: nat

    /** An empty store. */
    constructor()
      ensures workOrders == [] && invoices == [] && authUsers == []
      ensures settings == [] && customers == [] && inventoryItems == []
      ensures commits == 0
    {
      workOrders := [];
      invoices := [];
      authUsers := [];
      settings := [];
      customers := [];
      inventoryItems := [];
      commits := 0;
    }

    /** `save()`: commits the pending changes; the records are already in place. */
    method Save()
      modifies this`commits
      ensures commits == old(commits) + 1
    {
      commits := commits + 1;
    }
  }
}
