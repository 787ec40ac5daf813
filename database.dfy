/** The MongoDB collections the server handlers read and write, as one
    object whose fields the handlers update in place. */
module Database {
  import opened Models

  class Store {
    var inventory: map<Id, InventoryItem>
    var products: map<Id, Product>
    /** The sale ledger, in insertion order; a sale's id is its position. */
    var sales: seq<Sale>
    /** Source of fresh ObjectIds: every id in use is below it. */
    var nextId: Id

    /** Every stored document passed its schema's validation. */
    ghost predicate Valid()
      reads this
    {
      && (forall k :: k in inventory ==> k < nextId && ValidInventoryItem(inventory[k]))
      && (forall k :: k in products ==> k < nextId && ValidProduct(products[k]))
      && (forall j :: 0 <= j < |sales| ==> ValidSale(sales[j]))
    }

    constructor ()
      ensures Valid()
      ensures inventory == map[] && products == map[] && sales == []
    {
      inventory := map[];
      products := map[];
      sales := [];
      nextId := 0;
    }

    /** Allocates an id that no document of any collection uses. */
    method FreshId() returns (id: Id)
      requires Valid()
      modifies this`nextId
      ensures Valid()
      ensures id == old(nextId) && nextId == id + 1
      ensures id !in inventory && id !in products
    {
      id := nextId;
      nextId := nextId + 1;
    }
  }
}
