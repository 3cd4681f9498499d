/** `CustomerFormViewModel`: the create / edit form of a customer. */
module CustomerForm {
  import opened Wrappers
  import opened Text
  import opened Seqs
  import opened Records
  import opened Persistence

  /** An edited customer: the four form values stored, empty optional texts as nothing. */
  function EditedCustomer(c: Customer, name: string, phone: string, email: string, address: string): (r: Customer)
    ensures r.id == c.id && r.name == name
    ensures r.phone == NilIfEmpty(phone) && r.email == NilIfEmpty(email) && r.address == NilIfEmpty(address)
  {
    c.(name := name, phone := NilIfEmpty(phone), email := NilIfEmpty(email), address := NilIfEmpty(address))
  }

  /**
   * The customers after a save. A form that edits inserts nothing and changes only the first
   * stored customer with the id it was opened on, if there still is one (with unique ids, that
   * customer: `EditRewritesOpenedCustomer`); a form that creates appends one.
   */
  function SavedCustomers(store: seq<Customer>, existing: Option<nat>, name: string, phone: string,
                          email: string, address: string, newId: nat): (r: seq<Customer>)
    ensures existing.Some? ==> |r| == |store|
    ensures existing.Some? ==> forall k :: 0 <= k < |store| && IndexOfCustomer(store, existing.value) != Some(k)
                                          ==> r[k] == store[k]
    ensures existing.Some? && IndexOfCustomer(store, existing.value).Some? ==>
              var k := IndexOfCustomer(store, existing.value).value;
              r[k] == EditedCustomer(store[k], name, phone, email, address)
    ensures existing.None? ==> |r| == |store| + 1 && r[..|store|] == store
    ensures existing.None? ==>
              r[|store|] == Customer(newId, name, NilIfEmpty(phone), NilIfEmpty(email), NilIfEmpty(address))
  {
    match existing
    case Some(id) =>
      (match IndexOfCustomer(store, id)
       case None => store
       case Some(k) => store[k := EditedCustomer(store[k], name, phone, email, address)])
    case None =>
      store + [Customer(newId, name, NilIfEmpty(phone), NilIfEmpty(email), NilIfEmpty(address))]
  }

  /** Opening a stored customer and saving it untouched changes nothing. */
  lemma UneditedSaveKeepsCustomer(store: seq<Customer>, k: nat, newId: nat)
    requires k < |store| && IndexOfCustomer(store, store[k].id) == Some(k)
    requires store[k].phone != Some([]) && store[k].email != Some([]) && store[k].address != Some([])
    ensures var c := store[k];
      SavedCustomers(store, Some(c.id), c.name, c.phone.GetOr([]), c.email.GetOr([]), c.address.GetOr([]), newId)
      == store
  {
    var c := store[k];
    NilIfEmptyRoundTrip(c.phone);
    NilIfEmptyRoundTrip(c.email);
    NilIfEmptyRoundTrip(c.address);
    assert EditedCustomer(c, c.name, c.phone.GetOr([]), c.email.GetOr([]), c.address.GetOr([])) == c;
  }

  /** With unique ids, a form opened on the stored customer at `k` rewrites that customer and no other. */
  lemma EditRewritesOpenedCustomer(store: seq<Customer>, k: nat, name: string, phone: string,
                                   email: string, address: string, newId: nat)
    requires UniqueKeys(store, CustomerKey) && k < |store|
    ensures SavedCustomers(store, Some(store[k].id), name, phone, email, address, newId)
            == store[k := EditedCustomer(store[k], name, phone, email, address)]
  {
    UniqueCustomerIndex(store, k);
  }

  /** A save keeps the stored ids unique, given a fresh id for a created customer. */
  lemma SavedCustomersKeepIdsUnique(store: seq<Customer>, existing: Option<nat>, name: string, phone: string,
                                    email: string, address: string, newId: nat)
    requires UniqueKeys(store, CustomerKey)
    requires existing.None? ==> FreshKey(store, CustomerKey, newId)
    ensures UniqueKeys(SavedCustomers(store, existing, name, phone, email, address, newId), CustomerKey)
  {
    if existing.None? {
      AppendFreshKeepsUnique(store, Customer(newId, name, NilIfEmpty(phone), NilIfEmpty(email),
                                             NilIfEmpty(address)), CustomerKey);
    } else if IndexOfCustomer(store, existing.value).Some? {
      var k := IndexOfCustomer(store, existing.value).value;
      ReplaceKeepsUnique(store, k, EditedCustomer(store[k], name, phone, email, address), CustomerKey);
    }
  }

  class CustomerFormViewModel {
    var name: string
    var phone: string
    var email: string
    var address: string
    var isEditing: bool
    /** The id of the customer being edited. */
    var existingCustomer: Option<nat>

    /** `init(customer: nil)`: an empty form for a new customer. */
    constructor New()
      ensures name == "" && phone == "" && email == "" && address == ""
      ensures !isEditing && existingCustomer.None?
      ensures Title() == "Nuevo cliente"
    {
      name := "";
      phone := "";
      email := "";
      address := "";
      isEditing := false;
      existingCustomer := None;
    }

    /** `init(customer:)` */
    constructor Edit(c: Customer)
      ensures existingCustomer == Some(c.id) && isEditing
      ensures name == c.name && phone == c.phone.GetOr("") && email == c.email.GetOr("")
      ensures address == c.address.GetOr("")
      ensures Title() == "Editar cliente"
    {
      existingCustomer := Some(c.id);
      isEditing := true;
      name := c.name;
      phone := c.phone.GetOr("");
      email := c.email.GetOr("");
      address := c.address.GetOr("");
    }

    /** `title` */
    function Title(): string
      reads this
    {
      if isEditing then "Editar cliente" else "Nuevo cliente"
    }

    /** `canSave`: the name is not blank. */
    predicate CanSave()
      reads this
    {
      !IsBlank(name, WhitespacesAndNewlines)
    }

    /**
     * `save(in:)`. Nothing guards it: the name is saved as it is. `newId` stands for the new
     * customer's `UUID()`, which no stored customer has.
     */
    method Save(ctx: ModelContext, newId: nat)
      requires existingCustomer.None? ==> FreshKey(ctx.customers, CustomerKey, newId)
      modifies ctx`customers, ctx`commits
      ensures ctx.customers == SavedCustomers(old(ctx.customers), existingCustomer, name, phone, email, address, newId)
      ensures ctx.commits == old(ctx.commits) + 1
      ensures UniqueKeys(old(ctx.customers), CustomerKey) ==> UniqueKeys(ctx.customers, CustomerKey)
    {
      if UniqueKeys(ctx.customers, CustomerKey) {
        SavedCustomersKeepIdsUnique(ctx.customers, existingCustomer, name, phone, email, address, newId);
      }
      match existingCustomer {
        case Some(id) =>
          var found := IndexOfCustomer(ctx.customers, id);
          if found.Some? {
            var c := ctx.customers[found.value];
            c := c.(name := name);
            c := c.(phone := if phone == [] then None else Some(phone));
            c := c.(email := if email == [] then None else Some(email));
            c := c.(address := if address == [] then None else Some(address));
            ctx.customers := ctx.customers[found.value := c];
          }
        case None =>
          var newCustomer := Customer(newId, name, NilIfEmpty(phone), NilIfEmpty(email), NilIfEmpty(address));
          ctx.customers := ctx.customers + [newCustomer];
      }

      ctx.Save();
    }
  }
}
