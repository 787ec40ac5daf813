/** Checkout (`processBill`): price every cart line, walk each product's
    recipe deducting `qtyNeeded * quantity` from the referenced item and
    saving it, stop as soon as an item falls below its floor, collect
    low-stock alerts, and write the Sale only after every line went
    through.

    The walk is not all-or-nothing: each deduction is saved before its
    floor check, so an error leaves every deduction made so far (the
    failing one included) in the store. The functions below specify the
    walk step by step; `ProcessBill` is the handler over the store. */
module BillingController {
  import opened Wrappers
  import opened Models
  import opened Database

  datatype BillError =
    | NoItems
    | ProductNotFound(productId: Id)
    | InventoryNotFound(inventoryId: Id)
    /** The floor check failed: the item's name, its floor, and its
        quantity before and after the (already saved) deduction. */
    | StockTooLow(name: string, minQty: int, before: int, after: int)
    /** The Sale's own validation failed (a quantity below 1). */
    | SaleRejected
    /** Only raised by the validate-then-apply variant (AtomicCheckout). */
    | InsufficientStock(name: string, available: int, needed: int)

  /** A non-blocking low-stock warning. */
  datatype Alert = Alert(inventoryItem: string, remainingQty: int, unit: string)

  /** What the handler answers on success; the total is `sale.total`. */
  datatype Receipt = Receipt(sale: Sale, alerts: seq<Alert>)

  /** The inventory collection after the call, and the answer. */
  datatype Outcome = Outcome(inventory: map<Id, InventoryItem>, response: Result<Receipt, BillError>)

  /** The state of the walk: the inventory as saved so far, the running
      total, the sale items and alerts collected, and the error, if any,
      that stopped it. */
  datatype Progress = Progress(
    inventory: map<Id, InventoryItem>,
    total: int,
    saleItems: seq<SaleItem>,
    alerts: seq<Alert>,
    failure: Option<BillError>)

  /** One recipe line of a cart line: look the item up, subtract and save,
      then the floor check, then the alert check (post-deduction quantity at
      most twice the per-unit need). */
  function Deduct(p: Progress, line: RecipeLine, quantity: int): Progress {
    var id := line.inventoryId;
    if id !in p.inventory then p.(failure := Some(InventoryNotFound(id)))
    else
      var item := p.inventory[id];
      var after := item.qty - line.qtyNeeded * quantity;
      var saved := p.inventory[id := item.(qty := after)];
      if after < item.minQty then
        p.(inventory := saved, failure := Some(StockTooLow(item.name, item.minQty, item.qty, after)))
      else if after <= line.qtyNeeded * 2 then
        p.(inventory := saved, alerts := p.alerts + [Alert(item.name, after, item.unit)])
      else
        p.(inventory := saved)
  }

  /** The inner loop over a recipe, up to its first error. */
  function DeductRecipe(p: Progress, recipe: seq<RecipeLine>, quantity: int): Progress
    decreases |recipe|
  {
    if |recipe| == 0 then p
    else
      var q := DeductRecipe(p, recipe[..|recipe| - 1], quantity);
      if q.failure.Some? then q else Deduct(q, recipe[|recipe| - 1], quantity)
  }

  /** One cart line: look the product up, add `price * quantity` to the
      total, snapshot the price into a sale item, then deduct its recipe. */
  function BillLine(p: Progress, products: map<Id, Product>, item: BillItem): Progress {
    if item.productId !in products then p.(failure := Some(ProductNotFound(item.productId)))
    else
      var product := products[item.productId];
      var priced := p.(total := p.total + product.price * item.quantity,
                       saleItems := p.saleItems + [SaleItem(item.productId, item.quantity, product.price)]);
      DeductRecipe(priced, product.recipe, item.quantity)
  }

  /** The outer loop over the cart, up to its first error. */
  function BillAll(inventory: map<Id, InventoryItem>, products: map<Id, Product>, items: seq<BillItem>): Progress
    decreases |items|
  {
    if |items| == 0 then Progress(inventory, 0, [], [], None)
    else
      var p := BillAll(inventory, products, items[..|items| - 1]);
      if p.failure.Some? then p else BillLine(p, products, items[|items| - 1])
  }

  /** The whole handler on values: an empty item list is rejected before
      any lookup; otherwise the walk runs, and only if it gets through is
      the Sale built and validated. The inventory is whatever the walk left,
      on every path. */
  function Checkout(inventory: map<Id, InventoryItem>, products: map<Id, Product>,
                    items: seq<BillItem>, customerEmail: Option<string>): Outcome
  {
    if |items| == 0 then Outcome(inventory, Failure(NoItems))
    else
      var p := BillAll(inventory, products, items);
      if p.failure.Some? then Outcome(p.inventory, Failure(p.failure.value))
      else
        var sale := Sale(p.saleItems, p.total, customerEmail);
        if ValidSale(sale) then Outcome(p.inventory, Success(Receipt(sale, p.alerts)))
        else Outcome(p.inventory, Failure(SaleRejected))
  }

  /** A deduction changes one item's quantity and nothing else about any
      item, and never the set of items. */
  predicate SameItemsUpToQty(a: map<Id, InventoryItem>, b: map<Id, InventoryItem>) {
    a.Keys == b.Keys &&
    forall k :: k in a ==> a[k].name == b[k].name && a[k].unit == b[k].unit && a[k].minQty == b[k].minQty
  }

  lemma {:induction false} DeductRecipeKeepsItems(p: Progress, recipe: seq<RecipeLine>, quantity: int)
    ensures SameItemsUpToQty(p.inventory, DeductRecipe(p, recipe, quantity).inventory)
    decreases |recipe|
  {
    if |recipe| > 0 {
      DeductRecipeKeepsItems(p, recipe[..|recipe| - 1], quantity);
    }
  }

  lemma {:induction false} BillAllKeepsItems(inventory: map<Id, InventoryItem>, products: map<Id, Product>, items: seq<BillItem>)
    ensures SameItemsUpToQty(inventory, BillAll(inventory, products, items).inventory)
    decreases |items|
  {
    if |items| > 0 {
      var pre := items[..|items| - 1];
      BillAllKeepsItems(inventory, products, pre);
      var p := BillAll(inventory, products, pre);
      if p.failure.None? && items[|items| - 1].productId in products {
        var item := items[|items| - 1];
        var product := products[item.productId];
        DeductRecipeKeepsItems(
          p.(total := p.total + product.price * item.quantity,
             saleItems := p.saleItems + [SaleItem(item.productId, item.quantity, product.price)]),
          product.recipe, item.quantity);
      }
    }
  }

  /** Once the inner loop has stopped on an error, the rest of the recipe
      is never looked at. */
  lemma {:induction false} DeductRecipeStops(p: Progress, recipe: seq<RecipeLine>, quantity: int, j: nat)
    requires j <= |recipe| && DeductRecipe(p, recipe[..j], quantity).failure.Some?
    ensures DeductRecipe(p, recipe, quantity) == DeductRecipe(p, recipe[..j], quantity)
    decreases |recipe|
  {
    if j < |recipe| {
      var pre := recipe[..|recipe| - 1];
      assert pre[..j] == recipe[..j];
      DeductRecipeStops(p, pre, quantity, j);
    } else {
      assert recipe[..j] == recipe;
    }
  }

  /** Once the outer loop has stopped on an error, the rest of the cart is
      never looked at. */
  lemma {:induction false} BillAllStops(inventory: map<Id, InventoryItem>, products: map<Id, Product>,
                                        items: seq<BillItem>, i: nat)
    requires i <= |items| && BillAll(inventory, products, items[..i]).failure.Some?
    ensures BillAll(inventory, products, items) == BillAll(inventory, products, items[..i])
    decreases |items|
  {
    if i < |items| {
      var pre := items[..|items| - 1];
      assert pre[..i] == items[..i];
      BillAllStops(inventory, products, pre, i);
    } else {
      assert items[..i] == items;
    }
  }

  /** After a clean prefix, the outer loop goes on with the next cart line. */
  lemma BillAllStep(inventory: map<Id, InventoryItem>, products: map<Id, Product>, items: seq<BillItem>)
    requires |items| > 0 && BillAll(inventory, products, items[..|items| - 1]).failure.None?
    ensures BillAll(inventory, products, items) ==
            BillLine(BillAll(inventory, products, items[..|items| - 1]), products, items[|items| - 1])
  {
  }

  /** The inner loop of the handler: each ingredient's new quantity is
      written to the store before its floor check, and the loop stops at the
      first error, leaving the deductions made so far in place. */
  method DeductInStore(db: Store, recipe: seq<RecipeLine>, quantitySold: int,
                       alertsSoFar: seq<Alert>, ghost total: int, ghost saleItems: seq<SaleItem>)
    returns (alerts: seq<Alert>, failure: Option<BillError>)
    requires db.Valid()
    modifies db
    ensures db.Valid()
    ensures db.products == old(db.products) && db.nextId == old(db.nextId) && db.sales == old(db.sales)
    ensures DeductRecipe(Progress(old(db.inventory), total, saleItems, alertsSoFar, None), recipe, quantitySold)
            == Progress(db.inventory, total, saleItems, alerts, failure)
  {
    ghost var start := Progress(db.inventory, total, saleItems, alertsSoFar, None);
    alerts := alertsSoFar;
    var j := 0;
    while j < |recipe|
      invariant 0 <= j <= |recipe|
      invariant db.Valid()
      invariant db.products == old(db.products) && db.nextId == old(db.nextId) && db.sales == old(db.sales)
      invariant DeductRecipe(start, recipe[..j], quantitySold) == start.(inventory := db.inventory, alerts := alerts)
    {
      var ingredient := recipe[j];
      assert recipe[..j + 1][..j] == recipe[..j];
      var totalQtyNeeded := ingredient.qtyNeeded * quantitySold;
      if ingredient.inventoryId !in db.inventory {
        DeductRecipeStops(start, recipe, quantitySold, j + 1);
        return alerts, Some(InventoryNotFound(ingredient.inventoryId));
      }
      var inventoryItem := db.inventory[ingredient.inventoryId];
      var before := inventoryItem.qty;
      inventoryItem := inventoryItem.(qty := inventoryItem.qty - totalQtyNeeded);
      db.inventory := db.inventory[ingredient.inventoryId := inventoryItem];
      if inventoryItem.qty < inventoryItem.minQty {
        DeductRecipeStops(start, recipe, quantitySold, j + 1);
        return alerts, Some(StockTooLow(inventoryItem.name, inventoryItem.minQty, before, inventoryItem.qty));
      }
      if inventoryItem.qty <= ingredient.qtyNeeded * 2 {
        alerts := alerts + [Alert(inventoryItem.name, inventoryItem.qty, inventoryItem.unit)];
      }
      j := j + 1;
    }
    assert recipe[..j] == recipe;
    failure := None;
  }

  /** The handler. The Sale is appended to the ledger only when the whole
      walk and the Sale's own validation succeed; the inventory is left as
      the walk left it on every path. */
  method ProcessBill(db: Store, items: seq<BillItem>, customerEmail: Option<string>)
    returns (response: Result<Receipt, BillError>)
    requires db.Valid()
    modifies db
    ensures db.Valid()
    ensures response == Checkout(old(db.inventory), old(db.products), items, customerEmail).response
    ensures db.inventory == Checkout(old(db.inventory), old(db.products), items, customerEmail).inventory
    ensures db.products == old(db.products) && db.nextId == old(db.nextId)
    ensures db.sales == old(db.sales) + (if response.Success? then [response.value.sale] else [])
  {
    if |items| == 0 {
      return Failure(NoItems);
    }
    ghost var initial := db.inventory;
    var totalAmount := 0;
    var saleItems: seq<SaleItem> := [];
    var lowStockAlerts: seq<Alert> := [];
    var i := 0;
    while i < |items|
      invariant 0 <= i <= |items|
      invariant db.Valid()
      invariant db.products == old(db.products) && db.nextId == old(db.nextId) && db.sales == old(db.sales)
      invariant BillAll(initial, db.products, items[..i]) == Progress(db.inventory, totalAmount, saleItems, lowStockAlerts, None)
    {
      var item := items[i];
      assert items[..i + 1][..i] == items[..i];
      if item.productId !in db.products {
        BillAllStops(initial, db.products, items, i + 1);
        assert Checkout(initial, db.products, items, customerEmail) ==
               Outcome(db.inventory, Failure(ProductNotFound(item.productId)));
        return Failure(ProductNotFound(item.productId));
      }
      ghost var p := Progress(db.inventory, totalAmount, saleItems, lowStockAlerts, None);
      var product := db.products[item.productId];
      totalAmount := totalAmount + product.price * item.quantity;
      saleItems := saleItems + [SaleItem(item.productId, item.quantity, product.price)];
      var failure;
      lowStockAlerts, failure := DeductInStore(db, product.recipe, item.quantity, lowStockAlerts, totalAmount, saleItems);
      assert BillLine(p, db.products, item) ==
             DeductRecipe(Progress(p.inventory, totalAmount, saleItems, p.alerts, None), product.recipe, item.quantity);
      BillAllStep(initial, db.products, items[..i + 1]);
      assert BillAll(initial, db.products, items[..i + 1]) ==
             Progress(db.inventory, totalAmount, saleItems, lowStockAlerts, failure);
      if failure.Some? {
        BillAllStops(initial, db.products, items, i + 1);
        assert Checkout(initial, db.products, items, customerEmail) == Outcome(db.inventory, Failure(failure.value));
        return Failure(failure.value);
      }
      i := i + 1;
    }
    assert items[..i] == items;
    var sale := Sale(saleItems, totalAmount, customerEmail);
    if exists k :: 0 <= k < |saleItems| && saleItems[k].quantity < 1 {
      assert Checkout(initial, db.products, items, customerEmail) == Outcome(db.inventory, Failure(SaleRejected));
      return Failure(SaleRejected);
    }
    assert Checkout(initial, db.products, items, customerEmail) ==
           Outcome(db.inventory, Success(Receipt(sale, lowStockAlerts)));
    db.sales := db.sales + [sale];
    response := Success(Receipt(sale, lowStockAlerts));
  }
}
