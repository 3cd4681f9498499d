/** `InventoryFormViewModel`: the create / edit form of a stock item. */
module InventoryForm {
  import opened Wrappers
  import opened Text
  import opened Seqs
  import opened Numbers
  import opened WorkOrders
  import opened Records
  import opened Persistence

  /** An edited item: every form value stored, empty optional texts as nothing, the clock stamped. */
  function EditedItem(item: InventoryItem, sku: string, name: string, category: string,
                      quantity: Int64, minimumStock: Int64, unitCost: real, location: string,
                      notes: string, now: Timestamp): (r: InventoryItem)
    ensures r.id == item.id && r.sku == sku && r.name == name
    ensures r.category == NilIfEmpty(category) && r.location == NilIfEmpty(location)
    ensures r.notes == NilIfEmpty(notes)
    ensures r.quantity == quantity && r.minimumStock == minimumStock && r.unitCost == unitCost
    ensures r.updatedAt == Some(now)
  {
    item.(sku := sku, name := name, category := NilIfEmpty(category), quantity := quantity,
          minimumStock := minimumStock, unitCost := unitCost, location := NilIfEmpty(location),
          notes := NilIfEmpty(notes), updatedAt := Some(now))
  }

  /** A new item carrying the form values; it has not been updated yet. */
  function NewItem(id: nat, sku: string, name: string, category: string, quantity: Int64,
                   minimumStock: Int64, unitCost: real, location: string, notes: string): (r: InventoryItem)
    ensures r.id == id && r.sku == sku && r.name == name
    ensures r.category == NilIfEmpty(category) && r.location == NilIfEmpty(location)
    ensures r.notes == NilIfEmpty(notes)
    ensures r.quantity == quantity && r.minimumStock == minimumStock && r.unitCost == unitCost
    ensures r.updatedAt.None?
  {
    InventoryItem(id, sku, name, NilIfEmpty(category), quantity, minimumStock, unitCost,
                  NilIfEmpty(location), NilIfEmpty(notes), None)
  }

  /**
   * The items after a save whose numbers parsed. A form that edits inserts nothing and changes
   * only the first stored item with the id it was opened on, if there still is one (with unique
   * ids, that item: `EditRewritesOpenedItem`); a form that creates appends one item.
   */
  function SavedItems(store: seq<InventoryItem>, existing: Option<nat>, sku: string, name: string,
                      category: string, quantity: Int64, minimumStock: Int64, unitCost: real,
                      location: string, notes: string, now: Timestamp, newId: nat): (r: seq<InventoryItem>)
    ensures existing.Some? ==> |r| == |store|
    ensures existing.Some? ==> forall k :: 0 <= k < |store| && IndexOfItem(store, existing.value) != Some(k)
                                          ==> r[k] == store[k]
    ensures existing.Some? && IndexOfItem(store, existing.value).Some? ==>
              var k := IndexOfItem(store, existing.value).value;
              r[k] == EditedItem(store[k], sku, name, category, quantity, minimumStock, unitCost,
                                 location, notes, now)
    ensures existing.None? ==> |r| == |store| + 1 && r[..|store|] == store
    ensures existing.None? ==> r[|store|] == NewItem(newId, sku, name, category, quantity, minimumStock,
                                                     unitCost, location, notes)
  {
    match existing
    case Some(id) =>
      (match IndexOfItem(store, id)
       case None => store
       case Some(k) =>
         store[k := EditedItem(store[k], sku, name, category, quantity, minimumStock, unitCost,
                               location, notes, now)])
    case None =>
      store + [NewItem(newId, sku, name, category, quantity, minimumStock, unitCost, location, notes)]
  }

  /**
   * Opening a stored item and saving it untouched changes nothing but `updatedAt`: the
   * quantities read back exactly from their text, and the optional texts from "" back to
   * nothing (an optional text that is stored as "" would come back as nothing).
   */
  lemma UneditedSaveKeepsItem(store: seq<InventoryItem>, k: nat, now: Timestamp, newId: nat)
    requires k < |store| && IndexOfItem(store, store[k].id) == Some(k)
    requires store[k].category != Some([]) && store[k].location != Some([]) && store[k].notes != Some([])
    ensures ParseInt(FormatInt(store[k].quantity)) == Some(store[k].quantity)
    ensures ParseInt(FormatInt(store[k].minimumStock)) == Some(store[k].minimumStock)
    ensures var item := store[k];
      SavedItems(store, Some(item.id), item.sku, item.name, item.category.GetOr([]), item.quantity,
                 item.minimumStock, item.unitCost, item.location.GetOr([]), item.notes.GetOr([]), now, newId)
      == store[k := item.(updatedAt := Some(now))]
  {
    var item := store[k];
    ParseFormatInt(item.quantity);
    ParseFormatInt(item.minimumStock);
    NilIfEmptyRoundTrip(item.category);
    NilIfEmptyRoundTrip(item.location);
    NilIfEmptyRoundTrip(item.notes);
  }

  /** With unique ids, a form opened on the stored item at `k` rewrites that item and no other. */
  lemma EditRewritesOpenedItem(store: seq<InventoryItem>, k: nat, sku: string, name: string,
                               category: string, quantity: Int64, minimumStock: Int64, unitCost: real,
                               location: string, notes: string, now: Timestamp, newId: nat)
    requires UniqueKeys(store, ItemKey) && k < |store|
    ensures SavedItems(store, Some(store[k].id), sku, name, category, quantity, minimumStock, unitCost,
                       location, notes, now, newId)
            == store[k := EditedItem(store[k], sku, name, category, quantity, minimumStock, unitCost,
                                     location, notes, now)]
  {
    UniqueItemIndex(store, k);
  }

  /** A save keeps the stored ids unique, given a fresh id for a created item. */
  lemma SavedItemsKeepIdsUnique(store: seq<InventoryItem>, existing: Option<nat>, sku: string, name: string,
                                category: string, quantity: Int64, minimumStock: Int64, unitCost: real,
                                location: string, notes: string, now: Timestamp, newId: nat)
    requires UniqueKeys(store, ItemKey)
    requires existing.None? ==> FreshKey(store, ItemKey, newId)
    ensures UniqueKeys(SavedItems(store, existing, sku, name, category, quantity, minimumStock, unitCost,
                                  location, notes, now, newId), ItemKey)
  {
    if existing.None? {
      AppendFreshKeepsUnique(store, NewItem(newId, sku, name, category, quantity, minimumStock, unitCost,
                                            location, notes), ItemKey);
    } else if IndexOfItem(store, existing.value).Some? {
      var k := IndexOfItem(store, existing.value).value;
      ReplaceKeepsUnique(store, k, EditedItem(store[k], sku, name, category, quantity, minimumStock,
                                              unitCost, location, notes, now), ItemKey);
    }
  }

  class InventoryFormViewModel {
    var sku: string
    var name: string
    var category: string
    var quantityText: string
    var minimumStockText: string
    var unitCostText: string
    var location: string
    var notes: string
    var isEditing: bool
    /** The id of the item being edited. */
    var existingItem: Option<nat>

    /** `init(item: nil)`: an empty form for a new item. */
    constructor New()
      ensures sku == "" && name == "" && category == "" && quantityText == ""
      ensures minimumStockText == "" && unitCostText == "" && location == "" && notes == ""
      ensures !isEditing && existingItem.None?
      ensures Title() == "Nuevo artículo"
    {
      sku := "";
      name := "";
      category := "";
      quantityText := "";
      minimumStockText := "";
      unitCostText := "";
      location := "";
      notes := "";
      isEditing := false;
      existingItem := None;
    }

    /** `init(item:)`; `costText` is `String(item.unitCost)`. */
    constructor Edit(item: InventoryItem, costText: string)
      ensures existingItem == Some(item.id) && isEditing
      ensures sku == item.sku && name == item.name && category == item.category.GetOr("")
      ensures quantityText == FormatInt(item.quantity) && ParseInt(quantityText) == Some(item.quantity)
      ensures minimumStockText == FormatInt(item.minimumStock)
      ensures ParseInt(minimumStockText) == Some(item.minimumStock)
      ensures unitCostText == costText
      ensures location == item.location.GetOr("") && notes == item.notes.GetOr("")
      ensures Title() == "Editar artículo"
    {
      existingItem := Some(item.id);
      isEditing := true;
      sku := item.sku;
      name := item.name;
      category := item.category.GetOr("");
      quantityText := FormatInt(item.quantity);
      minimumStockText := FormatInt(item.minimumStock);
      unitCostText := costText;
      location := item.location.GetOr("");
      notes := item.notes.GetOr("");
      ParseFormatInt(item.quantity);
      ParseFormatInt(item.minimumStock);
    }

    /** `title` */
    function Title(): string
      reads this
    {
      if isEditing then "Editar artículo" else "Nuevo artículo"
    }

    /** `canSave`: SKU and name not blank, both quantities and the cost parse. */
    predicate CanSave()
      reads this
    {
      && !IsBlank(sku, WhitespacesAndNewlines)
      && !IsBlank(name, WhitespacesAndNewlines)
      && ParseInt(quantityText).Some?
      && ParseInt(minimumStockText).Some?
      && ParseDouble(unitCostText).Some?
    }

    /** The three numbers of the form all parse. */
    predicate NumbersParse()
      reads this
    {
      ParseInt(quantityText).Some? && ParseInt(minimumStockText).Some? && ParseDouble(unitCostText).Some?
    }

    /**
     * `save(in:)`. The three numbers guard it: if one does not parse, the store is left alone
     * and nothing is saved; SKU and name are not checked again. `newId` and `now` stand for the
     * new item's `UUID()`, which no stored item has, and for `Date()`.
     */
    method Save(ctx: ModelContext, now: Timestamp, newId: nat)
      requires existingItem.None? ==> FreshKey(ctx.inventoryItems, ItemKey, newId)
      modifies ctx`inventoryItems, ctx`commits
      ensures !NumbersParse() ==>
                ctx.inventoryItems == old(ctx.inventoryItems) && ctx.commits == old(ctx.commits)
      ensures NumbersParse() ==>
                ctx.inventoryItems == SavedItems(old(ctx.inventoryItems), existingItem, sku, name, category,
                  ParseInt(quantityText).value, ParseInt(minimumStockText).value,
                  ParseDouble(unitCostText).value, location, notes, now, newId)
                && ctx.commits == old(ctx.commits) + 1
      ensures UniqueKeys(old(ctx.inventoryItems), ItemKey) ==> UniqueKeys(ctx.inventoryItems, ItemKey)
    {
      var parsedQuantity := ParseInt(quantityText);
      var parsedMinimum := ParseInt(minimumStockText);
      var parsedCost := ParseDouble(unitCostText);
      if parsedQuantity.None? || parsedMinimum.None? || parsedCost.None? {
        return;
      }
      var quantity, minimumStock, unitCost := parsedQuantity.value, parsedMinimum.value, parsedCost.value;
      if UniqueKeys(ctx.inventoryItems, ItemKey) {
        SavedItemsKeepIdsUnique(ctx.inventoryItems, existingItem, sku, name, category, quantity, minimumStock,
                                unitCost, location, notes, now, newId);
      }

      match existingItem {
        case Some(id) =>
          var found := IndexOfItem(ctx.inventoryItems, id);
          if found.Some? {
            var item := ctx.inventoryItems[found.value];
            item := item.(sku := sku);
            item := item.(name := name);
            item := item.(category := if category == [] then None else Some(category));
            item := item.(quantity := quantity);
            item := item.(minimumStock := minimumStock);
            item := item.(unitCost := unitCost);
            item := item.(location := if location == [] then None else Some(location));
            item := item.(notes := if notes == [] then None else Some(notes));
            item := item.(updatedAt := Some(now));
            ctx.inventoryItems := ctx.inventoryItems[found.value := item];
          }
        case None =>
          var newItem := NewItem(newId, sku, name, category, quantity, minimumStock, unitCost, location, notes);
          ctx.inventoryItems := ctx.inventoryItems + [newItem];
      }

      ctx.Save();
    }
  }
}
