/** `InventoryListViewModel`: the search over stock items and the list rows. */
module InventoryList {
  import opened Wrappers
  import opened Text
  import opened Seqs
  import opened Numbers
  import opened Records
  import opened Persistence

  /** `InventoryListItem`, without the formatted unit cost. */
  datatype InventoryListItem = InventoryListItem(
    id: nat,
    sku: string,
    name: string,
    category: Option<string>,
    quantityText: string,
    isLowStock: bool)

  /**
   * The test `filteredItems` applies: an empty search keeps everything; otherwise the
   * lowercased search, untrimmed, must occur in the name, the SKU or the category, and a
   * missing category never matches.
   */
  predicate ItemMatches(searchText: string, item: InventoryItem) {
    || searchText == []
    || Contains(Lowercased(item.name), Lowercased(searchText))
    || Contains(Lowercased(item.sku), Lowercased(searchText))
    || (item.category.Some? && Contains(Lowercased(item.category.value), Lowercased(searchText)))
  }

  /** The items `filteredItems` keeps, in input order. */
  function Passing(searchText: string, items: seq<InventoryItem>): (r: seq<InventoryItem>)
    ensures forall it :: it in r <==> it in items && ItemMatches(searchText, it)
    ensures searchText == [] ==> r == items
  {
    var p := it => ItemMatches(searchText, it);
    if searchText == [] then
      FilterAll(items, p);
      Filter(items, p)
    else
      Filter(items, p)
  }

  /** Each kept item occurs as often as in the input, in the input's order. */
  lemma PassingKeepsMultiplicity(searchText: string, items: seq<InventoryItem>)
    ensures var r := Passing(searchText, items);
      && IsSubsequence(r, items)
      && forall it :: multiset(r)[it] == if ItemMatches(searchText, it) then multiset(items)[it] else 0
  {
    FilterKeepsPassing(items, it => ItemMatches(searchText, it));
  }

  /** The row for one item; its quantity text reads back as the quantity. */
  function ToListItem(item: InventoryItem): (row: InventoryListItem)
    ensures row.id == item.id && row.sku == item.sku && row.name == item.name
    ensures row.category == item.category
    ensures row.isLowStock <==> item.quantity <= item.minimumStock
    ensures ParseInt(row.quantityText) == Some(item.quantity)
  {
    ParseFormatInt(item.quantity);
    InventoryListItem(item.id, item.sku, item.name, item.category, FormatInt(item.quantity),
                      item.quantity <= item.minimumStock)
  }

  /** A search of one space is not trimmed away: it hides an item without spaces in its texts. */
  lemma SpaceSearchIsLiteral()
    ensures !ItemMatches(" ", InventoryItem(1, "R1", "RAM", None, 4, 2, 350.0, None, None, None))
  {
    assert Lowercased("RAM") == "ram" && Lowercased("R1") == "r1" && Lowercased(" ") == " ";
    assert !Contains("", " ");
    assert !Contains("m", " ") && !Contains("am", " ") && !Contains("ram", " ");
    assert !Contains("1", " ") && !Contains("r1", " ");
  }

  class InventoryListViewModel {
    var searchText: string

    constructor()
      ensures searchText == ""
    {
      searchText := "";
    }

    /** `filteredItems(from:)`: one row per passing item, in input order. */
    function FilteredItems(items: seq<InventoryItem>): (r: seq<InventoryListItem>)
      reads this
      ensures var kept := Passing(searchText, items);
        |r| == |kept| && forall i :: 0 <= i < |r| ==> r[i] == ToListItem(kept[i])
      ensures searchText == [] ==> |r| == |items| && forall i :: 0 <= i < |r| ==> r[i] == ToListItem(items[i])
    {
      var kept := Passing(searchText, items);
      assert forall i :: 0 <= i < |kept| ==> kept[i] in kept;
      Map(kept, ToListItem)
    }

    /** `delete(_:in:)` on the item at `index`. */
    method Delete(ctx: ModelContext, index: nat)
      requires index < |ctx.inventoryItems|
      modifies ctx`inventoryItems, ctx`commits
      ensures ctx.inventoryItems == RemoveAt(old(ctx.inventoryItems), index)
      ensures ctx.commits == old(ctx.commits) + 1
      ensures UniqueKeys(old(ctx.inventoryItems), ItemKey) ==> UniqueKeys(ctx.inventoryItems, ItemKey)
    {
      if UniqueKeys(ctx.inventoryItems, ItemKey) {
        RemoveAtKeepsUnique(ctx.inventoryItems, index, ItemKey);
      }
      ctx.inventoryItems := RemoveAt(ctx.inventoryItems, index);
      ctx.Save();
    }
  }
}
