/** A validate-then-apply variant of checkout, not present in the source:
    the cart is checked as a whole first (references, quantities, and the
    cart-wide demand against each floor), and the walk's result is kept
    only when it succeeds. It refuses exactly the carts the source refuses,
    answers exactly as the source does on success, and leaves the store
    untouched on every failure. */
module AtomicCheckout {
  import opened Wrappers
  import opened Models
  import opened BillingController
  import opened BillingProperties

  /** Some line of the cart names a product or an item that does not exist. */
  ghost function Unresolved(inventory: map<Id, InventoryItem>, products: map<Id, Product>, items: seq<BillItem>)
    : (e: BillError)
    requires !Resolvable(inventory, products, items)
    ensures e.ProductNotFound? ==> exists i :: 0 <= i < |items| && items[i].productId == e.productId && e.productId !in products
    ensures e.InventoryNotFound? ==> e.inventoryId !in inventory
    ensures e.ProductNotFound? || e.InventoryNotFound?
  {
    var i :| 0 <= i < |items| &&
             !(items[i].productId in products && RecipeResolvable(inventory, products[items[i].productId].recipe));
    if items[i].productId !in products then ProductNotFound(items[i].productId)
    else
      var recipe := products[items[i].productId].recipe;
      var j :| 0 <= j < |recipe| && recipe[j].inventoryId !in inventory;
      InventoryNotFound(recipe[j].inventoryId)
  }

  /** The whole-cart check: the first problem found, or none. A floor
      problem names the item, what can still be taken from it, and what the
      cart needs. */
  ghost function Validate(inventory: map<Id, InventoryItem>, products: map<Id, Product>, items: seq<BillItem>)
    : (r: Option<BillError>)
    ensures r.None? <==>
            |items| > 0 && Resolvable(inventory, products, items) &&
            PositiveQuantities(items) && FloorsHold(inventory, products, items)
    ensures r == Some(NoItems) <==> |items| == 0
    ensures r.Some? && r.value.InsufficientStock? ==>
              exists k :: k in inventory && inventory[k].name == r.value.name &&
                          r.value.available == inventory[k].qty - inventory[k].minQty &&
                          r.value.needed == Demand(products, items, k) &&
                          r.value.needed > r.value.available
  {
    if |items| == 0 then Some(NoItems)
    else if !Resolvable(inventory, products, items) then Some(Unresolved(inventory, products, items))
    else if !PositiveQuantities(items) then Some(SaleRejected)
    else if !FloorsHold(inventory, products, items) then
      var k :| k in inventory && Touches(products, items, k) &&
               inventory[k].qty - Demand(products, items, k) < inventory[k].minQty;
      Some(InsufficientStock(inventory[k].name, inventory[k].qty - inventory[k].minQty, Demand(products, items, k)))
    else None
  }

  /** The variant: refuse what validation refuses, and otherwise commit the
      walk only if it gets through. */
  ghost function Checkout(inventory: map<Id, InventoryItem>, products: map<Id, Product>,
                          items: seq<BillItem>, customerEmail: Option<string>): Outcome
  {
    match Validate(inventory, products, items)
    case Some(e) => Outcome(inventory, Failure(e))
    case None =>
      var o := BillingController.Checkout(inventory, products, items, customerEmail);
      if o.response.Success? then o else Outcome(inventory, o.response)
  }

  /** All or nothing: a refused checkout leaves the inventory exactly as it
      was. */
  lemma FailureChangesNothing(inventory: map<Id, InventoryItem>, products: map<Id, Product>,
                              items: seq<BillItem>, customerEmail: Option<string>)
    ensures var o := Checkout(inventory, products, items, customerEmail);
            o.response.Failure? ==> o.inventory == inventory
  {
  }

  /** Whenever the source checkout succeeds, the variant gives the same
      answer and the same inventory. */
  lemma AgreesOnSuccess(inventory: map<Id, InventoryItem>, products: map<Id, Product>,
                        items: seq<BillItem>, customerEmail: Option<string>)
    requires BillingController.Checkout(inventory, products, items, customerEmail).response.Success?
    ensures Checkout(inventory, products, items, customerEmail) ==
            BillingController.Checkout(inventory, products, items, customerEmail)
  {
    CheckoutSuccessConditions(inventory, products, items, customerEmail);
  }

  /** The variant succeeds on exactly the carts the source succeeds on, and
      then agrees with it; on the others it fails without touching the
      store. */
  lemma SucceedsWithSource(inventory: map<Id, InventoryItem>, products: map<Id, Product>,
                           items: seq<BillItem>, customerEmail: Option<string>)
    ensures var o := Checkout(inventory, products, items, customerEmail);
            var source := BillingController.Checkout(inventory, products, items, customerEmail);
            && (o.response.Success? <==> source.response.Success?)
            && (o.response.Success? ==> o == source)
            && (o.response.Failure? ==> o.inventory == inventory)
  {
    if BillingController.Checkout(inventory, products, items, customerEmail).response.Success? {
      CheckoutSuccessConditions(inventory, products, items, customerEmail);
    }
  }

  /** A quantity below 1 is refused before anything is deducted, where the
      source deducts first and refuses the Sale afterwards. */
  lemma NonPositiveQuantityRefusedUpFront(inventory: map<Id, InventoryItem>, products: map<Id, Product>,
                                          items: seq<BillItem>, customerEmail: Option<string>, i: nat)
    requires i < |items| && items[i].quantity < 1
    ensures var o := Checkout(inventory, products, items, customerEmail);
            o.response.Failure? && o.inventory == inventory
  {
  }
}
