/** `CustomersListViewModel`: the search over customers and the list rows. */
module CustomersList {
  import opened Wrappers
  import opened Text
  import opened Seqs
  import opened Records
  import opened Persistence

  /** `CustomerListItem` */
  datatype CustomerListItem = CustomerListItem(
    id: nat,
    name: string,
    phone: Option<string>,
    email: Option<string>,
    summary: Option<string>)

  /** A lowercased, untrimmed search occurring in an optional field; a missing field never matches. */
  predicate FieldMatches(field: Option<string>, searchText: string) {
    field.Some? && Contains(Lowercased(field.value), Lowercased(searchText))
  }

  /**
   * The test `filteredItems` applies: an empty search keeps everything; otherwise the search
   * must occur in the name, the phone or the email. The address is not searched.
   */
  predicate CustomerMatches(searchText: string, c: Customer) {
    || searchText == []
    || Contains(Lowercased(c.name), Lowercased(searchText))
    || FieldMatches(c.phone, searchText)
    || FieldMatches(c.email, searchText)
  }

  /** The customers `filteredItems` keeps, in input order. */
  function Passing(searchText: string, customers: seq<Customer>): (r: seq<Customer>)
    ensures forall c :: c in r <==> c in customers && CustomerMatches(searchText, c)
    ensures searchText == [] ==> r == customers
  {
    var p := c => CustomerMatches(searchText, c);
    if searchText == [] then
      FilterAll(customers, p);
      Filter(customers, p)
    else
      Filter(customers, p)
  }

  /** Each kept customer occurs as often as in the input, in the input's order. */
  lemma PassingKeepsMultiplicity(searchText: string, customers: seq<Customer>)
    ensures var r := Passing(searchText, customers);
      && IsSubsequence(r, customers)
      && forall c :: multiset(r)[c] == if CustomerMatches(searchText, c) then multiset(customers)[c] else 0
  {
    FilterKeepsPassing(customers, c => CustomerMatches(searchText, c));
  }

  /** Two customers that differ only in their address are kept or dropped together. */
  lemma AddressNotSearched(searchText: string, c: Customer, address: Option<string>)
    ensures CustomerMatches(searchText, c.(address := address)) <==> CustomerMatches(searchText, c)
  {
  }

  /** The row for one customer; the summary is not filled in. */
  function ToListItem(c: Customer): (row: CustomerListItem)
    ensures row.id == c.id && row.name == c.name && row.phone == c.phone && row.email == c.email
    ensures row.summary.None?
  {
    CustomerListItem(c.id, c.name, c.phone, c.email, None)
  }

  class CustomersListViewModel {
    var searchText: string

    constructor()
      ensures searchText == ""
    {
      searchText := "";
    }

    /** `filteredItems(from:)`: one row per passing customer, in input order. */
    function FilteredItems(customers: seq<Customer>): (r: seq<CustomerListItem>)
      reads this
      ensures var kept := Passing(searchText, customers);
        |r| == |kept| && forall i :: 0 <= i < |r| ==> r[i] == ToListItem(kept[i])
      ensures searchText == [] ==>
                |r| == |customers| && forall i :: 0 <= i < |r| ==> r[i] == ToListItem(customers[i])
    {
      Map(Passing(searchText, customers), ToListItem)
    }

    /** `delete(_:in:)` on the customer at `index`. */
    method Delete(ctx: ModelContext, index: nat)
      requires index < |ctx.customers|
      modifies ctx`customers, ctx`commits
      ensures ctx.customers == RemoveAt(old(ctx.customers), index)
      ensures ctx.commits == old(ctx.commits) + 1
      ensures UniqueKeys(old(ctx.customers), CustomerKey) ==> UniqueKeys(ctx.customers, CustomerKey)
    {
      if UniqueKeys(ctx.customers, CustomerKey) {
        RemoveAtKeepsUnique(ctx.customers, index, CustomerKey);
      }
      ctx.customers := RemoveAt(ctx.customers, index);
      ctx.Save();
    }
  }
}
