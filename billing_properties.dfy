/** What checkout promises, stated against cart-wide reference definitions
    (the cart total, the cart-wide demand on each item, the items a cart
    touches) rather than against the step-by-step walk. */
module BillingProperties {
  import opened Wrappers
  import opened Models
  import opened BillingController

  // ---------------------------------------------------------------- reference definitions

  /** The price of one cart line; an unknown product contributes nothing. */
  function LineTotal(products: map<Id, Product>, item: BillItem): int {
    if item.productId in products then products[item.productId].price * item.quantity else 0
  }

  /** The sum over the cart of `price * quantity`. */
  function CartTotal(products: map<Id, Product>, items: seq<BillItem>): int
    decreases |items|
  {
    if |items| == 0 then 0
    else CartTotal(products, items[..|items| - 1]) + LineTotal(products, items[|items| - 1])
  }

  /** What one cart line of `quantity` units takes from item `k`: the sum of
      `qtyNeeded * quantity` over the recipe lines naming `k`. */
  function RecipeDemand(recipe: seq<RecipeLine>, quantity: int, k: Id): int
    decreases |recipe|
  {
    if |recipe| == 0 then 0
    else
      var last := recipe[|recipe| - 1];
      RecipeDemand(recipe[..|recipe| - 1], quantity, k) + (if last.inventoryId == k then last.qtyNeeded * quantity else 0)
  }

  /** What the whole cart takes from item `k`. */
  function Demand(products: map<Id, Product>, items: seq<BillItem>, k: Id): int
    decreases |items|
  {
    if |items| == 0 then 0
    else
      var last := items[|items| - 1];
      Demand(products, items[..|items| - 1], k) +
      (if last.productId in products then RecipeDemand(products[last.productId].recipe, last.quantity, k) else 0)
  }

  predicate RecipeUses(recipe: seq<RecipeLine>, k: Id)
    decreases |recipe|
  {
    |recipe| > 0 && (RecipeUses(recipe[..|recipe| - 1], k) || recipe[|recipe| - 1].inventoryId == k)
  }

  /** Some recipe of some product in the cart names item `k`. */
  predicate Touches(products: map<Id, Product>, items: seq<BillItem>, k: Id)
    decreases |items|
  {
    |items| > 0 &&
    (Touches(products, items[..|items| - 1], k) ||
     (items[|items| - 1].productId in products && RecipeUses(products[items[|items| - 1].productId].recipe, k)))
  }

  predicate RecipeResolvable(inventory: map<Id, InventoryItem>, recipe: seq<RecipeLine>) {
    forall j :: 0 <= j < |recipe| ==> recipe[j].inventoryId in inventory
  }

  /** Every product of the cart exists and every item its recipe names exists. */
  predicate Resolvable(inventory: map<Id, InventoryItem>, products: map<Id, Product>, items: seq<BillItem>) {
    forall i :: 0 <= i < |items| ==>
      items[i].productId in products && RecipeResolvable(inventory, products[items[i].productId].recipe)
  }

  predicate NonNegativeRecipe(recipe: seq<RecipeLine>) {
    forall j :: 0 <= j < |recipe| ==> recipe[j].qtyNeeded >= 0
  }

  /** No recipe in the catalog gives stock back. */
  predicate NonNegativeRecipes(products: map<Id, Product>) {
    forall pid :: pid in products ==> NonNegativeRecipe(products[pid].recipe)
  }

  predicate PositiveQuantities(items: seq<BillItem>) {
    forall i :: 0 <= i < |items| ==> items[i].quantity >= 1
  }

  /** The cart-wide floor condition: every item the cart touches stays at
      or above its floor after the cart's whole demand on it. */
  predicate FloorsHold(inventory: map<Id, InventoryItem>, products: map<Id, Product>, items: seq<BillItem>) {
    forall k :: k in inventory && Touches(products, items, k) ==>
      inventory[k].qty - Demand(products, items, k) >= inventory[k].minQty
  }

  // ---------------------------------------------------------------- arithmetic of the demands

  lemma {:induction false} RecipeDemandOfUnused(recipe: seq<RecipeLine>, quantity: int, k: Id)
    requires !RecipeUses(recipe, k)
    ensures RecipeDemand(recipe, quantity, k) == 0
    decreases |recipe|
  {
    if |recipe| > 0 {
      RecipeDemandOfUnused(recipe[..|recipe| - 1], quantity, k);
    }
  }

  lemma {:induction false} RecipeDemandNonNegative(recipe: seq<RecipeLine>, quantity: int, k: Id)
    requires NonNegativeRecipe(recipe) && quantity >= 0
    ensures RecipeDemand(recipe, quantity, k) >= 0
    decreases |recipe|
  {
    if |recipe| > 0 {
      var pre := recipe[..|recipe| - 1];
      assert NonNegativeRecipe(pre) by {
        forall j | 0 <= j < |pre| ensures pre[j].qtyNeeded >= 0 { assert pre[j] == recipe[j]; }
      }
      RecipeDemandNonNegative(pre, quantity, k);
      var last := recipe[|recipe| - 1];
      assert last.qtyNeeded >= 0;
      assert last.qtyNeeded * quantity >= 0;
    }
  }

  // ---------------------------------------------------------------- the inner loop

  /** What the walk over one recipe leaves in the store, on every outcome:
      the deductions of a prefix of the recipe, all of it when no error
      stopped the walk. Total and sale items are not touched. */
  lemma {:induction false} DeductRecipeApplied(p: Progress, recipe: seq<RecipeLine>, quantity: int)
    returns (m: nat)
    requires p.failure.None?
    ensures var r := DeductRecipe(p, recipe, quantity);
            && m <= |recipe|
            && r.total == p.total && r.saleItems == p.saleItems
            && (r.failure.None? ==> m == |recipe|)
            && r.inventory.Keys == p.inventory.Keys
            && forall k :: k in p.inventory ==>
                 r.inventory[k].qty == p.inventory[k].qty - RecipeDemand(recipe[..m], quantity, k)
    decreases |recipe|
  {
    if |recipe| == 0 {
      m := 0;
    } else {
      var pre := recipe[..|recipe| - 1];
      var last := recipe[|recipe| - 1];
      var m' := DeductRecipeApplied(p, pre, quantity);
      DeductRecipeKeepsItems(p, pre, quantity);
      var q := DeductRecipe(p, pre, quantity);
      assert pre[..m'] == recipe[..m'];
      if q.failure.Some? || last.inventoryId !in q.inventory {
        m := m';
      } else {
        m := |recipe|;
        assert m' == |pre|;
        assert recipe[..m] == recipe;
        assert pre[..m'] == pre;
        forall k | k in p.inventory
          ensures DeductRecipe(p, recipe, quantity).inventory[k].qty ==
                  p.inventory[k].qty - RecipeDemand(recipe[..m], quantity, k)
        {
          assert RecipeDemand(recipe, quantity, k) ==
                 RecipeDemand(pre, quantity, k) + (if last.inventoryId == k then last.qtyNeeded * quantity else 0);
        }
      }
    }
  }

  /** A recipe walk that gets through has found every item it names. */
  lemma {:induction false} DeductRecipeResolves(p: Progress, recipe: seq<RecipeLine>, quantity: int)
    requires p.failure.None? && DeductRecipe(p, recipe, quantity).failure.None?
    ensures RecipeResolvable(p.inventory, recipe)
    decreases |recipe|
  {
    if |recipe| > 0 {
      var pre := recipe[..|recipe| - 1];
      DeductRecipeResolves(p, pre, quantity);
      DeductRecipeKeepsItems(p, pre, quantity);
      forall j | 0 <= j < |recipe| ensures recipe[j].inventoryId in p.inventory {
        if j < |pre| { assert recipe[j] == pre[j]; }
      }
    }
  }

  /** A recipe walk that gets through leaves every item the recipe names at
      or above its floor: the last deduction on each was checked. */
  lemma {:induction false} DeductRecipeFloors(p: Progress, recipe: seq<RecipeLine>, quantity: int)
    requires p.failure.None? && DeductRecipe(p, recipe, quantity).failure.None?
    ensures var r := DeductRecipe(p, recipe, quantity);
            forall k :: k in r.inventory && RecipeUses(recipe, k) ==> r.inventory[k].qty >= r.inventory[k].minQty
    decreases |recipe|
  {
    if |recipe| > 0 {
      var pre := recipe[..|recipe| - 1];
      DeductRecipeFloors(p, pre, quantity);
    }
  }

  /** Conversely, with non-negative needs, a recipe walk whose items all
      exist and stay at or above their floors after the recipe's whole
      demand gets through: each intermediate quantity is at least the final one. */
  lemma {:induction false} DeductRecipePasses(p: Progress, recipe: seq<RecipeLine>, quantity: int)
    requires p.failure.None? && RecipeResolvable(p.inventory, recipe)
    requires NonNegativeRecipe(recipe) && quantity >= 0
    requires forall k :: k in p.inventory && RecipeUses(recipe, k) ==>
               p.inventory[k].qty - RecipeDemand(recipe, quantity, k) >= p.inventory[k].minQty
    ensures DeductRecipe(p, recipe, quantity).failure.None?
    decreases |recipe|
  {
    if |recipe| > 0 {
      var pre := recipe[..|recipe| - 1];
      var last := recipe[|recipe| - 1];
      assert NonNegativeRecipe(pre) by {
        forall j | 0 <= j < |pre| ensures pre[j].qtyNeeded >= 0 { assert pre[j] == recipe[j]; }
      }
      assert RecipeResolvable(p.inventory, pre) by {
        forall j | 0 <= j < |pre| ensures pre[j].inventoryId in p.inventory { assert pre[j] == recipe[j]; }
      }
      assert last.qtyNeeded * quantity >= 0;
      forall k | k in p.inventory && RecipeUses(pre, k)
        ensures p.inventory[k].qty - RecipeDemand(pre, quantity, k) >= p.inventory[k].minQty
      {
        assert RecipeUses(recipe, k);
      }
      DeductRecipePasses(p, pre, quantity);
      var m := DeductRecipeApplied(p, pre, quantity);
      assert pre[..m] == pre;
      DeductRecipeKeepsItems(p, pre, quantity);
      var id := last.inventoryId;
      assert RecipeUses(recipe, id);
      assert RecipeDemand(recipe, quantity, id) == RecipeDemand(pre, quantity, id) + last.qtyNeeded * quantity;
    }
  }

  // ---------------------------------------------------------------- the outer loop

  /** The progress before one cart line's recipe walk: priced and snapshotted. */
  function Priced(p: Progress, product: Product, item: BillItem): Progress {
    p.(total := p.total + product.price * item.quantity,
       saleItems := p.saleItems + [SaleItem(item.productId, item.quantity, product.price)])
  }

  lemma BillAllUnfold(inventory: map<Id, InventoryItem>, products: map<Id, Product>, items: seq<BillItem>)
    requires |items| > 0 && BillAll(inventory, products, items).failure.None?
    ensures var pre := items[..|items| - 1];
            var item := items[|items| - 1];
            && BillAll(inventory, products, pre).failure.None?
            && item.productId in products
            && BillAll(inventory, products, items) ==
               DeductRecipe(Priced(BillAll(inventory, products, pre), products[item.productId], item),
                            products[item.productId].recipe, item.quantity)
  {
  }

  /** A walk that gets through has priced every line: the total is the cart
      total, and there is one sale item per cart line, in cart order, carrying
      the product's current price. */
  lemma {:induction false} BillAllPrices(inventory: map<Id, InventoryItem>, products: map<Id, Product>, items: seq<BillItem>)
    requires BillAll(inventory, products, items).failure.None?
    ensures var p := BillAll(inventory, products, items);
            && p.total == CartTotal(products, items)
            && |p.saleItems| == |items|
            && forall i :: 0 <= i < |items| ==>
                 items[i].productId in products &&
                 p.saleItems[i] == SaleItem(items[i].productId, items[i].quantity, products[items[i].productId].price)
    decreases |items|
  {
    if |items| > 0 {
      var pre := items[..|items| - 1];
      var item := items[|items| - 1];
      BillAllUnfold(inventory, products, items);
      BillAllPrices(inventory, products, pre);
      var product := products[item.productId];
      var priced := Priced(BillAll(inventory, products, pre), product, item);
      var _ := DeductRecipeApplied(priced, product.recipe, item.quantity);
      forall i | 0 <= i < |items|
        ensures items[i].productId in products
      {
        if i < |pre| { assert items[i] == pre[i]; }
      }
    }
  }

  /** A walk that gets through has found every product and every item. */
  lemma {:induction false} BillAllResolves(inventory: map<Id, InventoryItem>, products: map<Id, Product>, items: seq<BillItem>)
    requires BillAll(inventory, products, items).failure.None?
    ensures Resolvable(inventory, products, items)
    decreases |items|
  {
    if |items| > 0 {
      var pre := items[..|items| - 1];
      var item := items[|items| - 1];
      BillAllUnfold(inventory, products, items);
      BillAllResolves(inventory, products, pre);
      BillAllKeepsItems(inventory, products, pre);
      var priced := Priced(BillAll(inventory, products, pre), products[item.productId], item);
      DeductRecipeResolves(priced, products[item.productId].recipe, item.quantity);
      forall i | 0 <= i < |items|
        ensures items[i].productId in products && RecipeResolvable(inventory, products[items[i].productId].recipe)
      {
        if i < |pre| { assert items[i] == pre[i]; }
      }
    }
  }

  /** A walk that gets through has taken from every item exactly the cart's
      whole demand on it: uses of one item by several lines add up. */
  lemma {:induction false} BillAllDeducts(inventory: map<Id, InventoryItem>, products: map<Id, Product>, items: seq<BillItem>)
    requires BillAll(inventory, products, items).failure.None?
    ensures var p := BillAll(inventory, products, items);
            && p.inventory.Keys == inventory.Keys
            && forall k :: k in inventory ==> p.inventory[k].qty == inventory[k].qty - Demand(products, items, k)
    decreases |items|
  {
    if |items| > 0 {
      var pre := items[..|items| - 1];
      var item := items[|items| - 1];
      BillAllUnfold(inventory, products, items);
      BillAllDeducts(inventory, products, pre);
      var product := products[item.productId];
      var priced := Priced(BillAll(inventory, products, pre), product, item);
      var m := DeductRecipeApplied(priced, product.recipe, item.quantity);
      assert product.recipe[..m] == product.recipe;
    }
  }

  /** A walk that gets through leaves every item the cart touches at or
      above its floor. */
  lemma {:induction false} BillAllFloors(inventory: map<Id, InventoryItem>, products: map<Id, Product>, items: seq<BillItem>)
    requires BillAll(inventory, products, items).failure.None?
    ensures var p := BillAll(inventory, products, items);
            forall k :: k in p.inventory && Touches(products, items, k) ==> p.inventory[k].qty >= p.inventory[k].minQty
    decreases |items|
  {
    if |items| > 0 {
      var pre := items[..|items| - 1];
      var item := items[|items| - 1];
      BillAllUnfold(inventory, products, items);
      BillAllFloors(inventory, products, pre);
      var product := products[item.productId];
      var priced := Priced(BillAll(inventory, products, pre), product, item);
      DeductRecipeFloors(priced, product.recipe, item.quantity);
      DeductRecipeKeepsItems(priced, product.recipe, item.quantity);
      var m := DeductRecipeApplied(priced, product.recipe, item.quantity);
      assert product.recipe[..m] == product.recipe;
      var r := BillAll(inventory, products, items);
      forall k | k in r.inventory && Touches(products, items, k)
        ensures r.inventory[k].qty >= r.inventory[k].minQty
      {
        if !RecipeUses(product.recipe, k) {
          RecipeDemandOfUnused(product.recipe, item.quantity, k);
        }
      }
    }
  }

  /** Conversely, with non-negative needs and quantities, a cart whose
      products and items all exist and whose cart-wide demand keeps every
      touched item at or above its floor gets through the walk. */
  lemma {:induction false} BillAllPasses(inventory: map<Id, InventoryItem>, products: map<Id, Product>, items: seq<BillItem>)
    requires Resolvable(inventory, products, items) && NonNegativeRecipes(products)
    requires forall i :: 0 <= i < |items| ==> items[i].quantity >= 0
    requires FloorsHold(inventory, products, items)
    ensures BillAll(inventory, products, items).failure.None?
    decreases |items|
  {
    if |items| > 0 {
      var pre := items[..|items| - 1];
      var item := items[|items| - 1];
      assert item == items[|items| - 1];
      var product := products[item.productId];
      assert Resolvable(inventory, products, pre) by {
        forall i | 0 <= i < |pre|
          ensures pre[i].productId in products && RecipeResolvable(inventory, products[pre[i].productId].recipe)
        { assert pre[i] == items[i]; }
      }
      assert forall i :: 0 <= i < |pre| ==> pre[i].quantity >= 0 by {
        forall i | 0 <= i < |pre| ensures pre[i].quantity >= 0 { assert pre[i] == items[i]; }
      }
      forall k | k in inventory && Touches(products, pre, k)
        ensures inventory[k].qty - Demand(products, pre, k) >= inventory[k].minQty
      {
        assert Touches(products, items, k);
        RecipeDemandNonNegative(product.recipe, item.quantity, k);
      }
      BillAllPasses(inventory, products, pre);
      BillAllDeducts(inventory, products, pre);
      BillAllKeepsItems(inventory, products, pre);
      var p := BillAll(inventory, products, pre);
      var priced := Priced(p, product, item);
      forall k | k in priced.inventory && RecipeUses(product.recipe, k)
        ensures priced.inventory[k].qty - RecipeDemand(product.recipe, item.quantity, k) >= priced.inventory[k].minQty
      {
        assert Touches(products, items, k);
      }
      DeductRecipePasses(priced, product.recipe, item.quantity);
    }
  }

  // ---------------------------------------------------------------- the walk as a list of deductions

  /** One saved deduction: the item, the amount taken (`qtyNeeded *
      quantity`), and the recipe line's per-unit need, against which the
      low-stock alert is measured. */
  datatype Deduction = Deduction(inventoryId: Id, amount: int, perUnit: int)

  /** The deductions one cart line's recipe makes, in recipe order. */
  function RecipeDeductions(recipe: seq<RecipeLine>, quantity: int): (ds: seq<Deduction>)
    ensures |ds| == |recipe|
    ensures forall j :: 0 <= j < |recipe| ==>
              ds[j] == Deduction(recipe[j].inventoryId, recipe[j].qtyNeeded * quantity, recipe[j].qtyNeeded)
  {
    seq(|recipe|, j requires 0 <= j < |recipe| =>
          Deduction(recipe[j].inventoryId, recipe[j].qtyNeeded * quantity, recipe[j].qtyNeeded))
  }

  /** Every deduction the walk would make on a cart whose products all exist,
      in walk order; a line with an unknown product contributes none (the
      walk stops there anyway). */
  function Deductions(products: map<Id, Product>, items: seq<BillItem>): seq<Deduction>
    decreases |items|
  {
    if |items| == 0 then []
    else
      var last := items[|items| - 1];
      Deductions(products, items[..|items| - 1]) +
      (if last.productId in products then RecipeDeductions(products[last.productId].recipe, last.quantity) else [])
  }

  /** Saving a list of deductions one after the other. */
  function ApplyAll(inventory: map<Id, InventoryItem>, ds: seq<Deduction>): map<Id, InventoryItem>
    decreases |ds|
  {
    if |ds| == 0 then inventory
    else
      var m := ApplyAll(inventory, ds[..|ds| - 1]);
      var d := ds[|ds| - 1];
      if d.inventoryId in m then m[d.inventoryId := m[d.inventoryId].(qty := m[d.inventoryId].qty - d.amount)] else m
  }

  /** `d` is the deduction a floor failure `e` reports: its item is left in
      the store under the reported name and floor at the reported quantity,
      which is the quantity before it less its amount. */
  predicate FailedOn(inventory: map<Id, InventoryItem>, d: Deduction, e: BillError)
    requires e.StockTooLow?
  {
    && d.inventoryId in inventory
    && inventory[d.inventoryId].name == e.name
    && inventory[d.inventoryId].minQty == e.minQty
    && inventory[d.inventoryId].qty == e.after
    && e.after == e.before - d.amount
  }

  lemma {:induction false} ApplyAllAppend(inventory: map<Id, InventoryItem>, a: seq<Deduction>, b: seq<Deduction>)
    ensures ApplyAll(inventory, a + b) == ApplyAll(ApplyAll(inventory, a), b)
    decreases |b|
  {
    if |b| == 0 {
      assert a + b == a;
    } else {
      assert (a + b)[..|a + b| - 1] == a + b[..|b| - 1];
      ApplyAllAppend(inventory, a, b[..|b| - 1]);
    }
  }

  /** The low-stock alerts raised while `ds` is saved in order: after each
      deduction of an existing item, one alert (name, remaining quantity,
      unit) when the remaining quantity is at most twice that line's
      per-unit need. Alerts never block, and repeated items are not merged. */
  function LowStockAlerts(inventory: map<Id, InventoryItem>, ds: seq<Deduction>): seq<Alert>
    decreases |ds|
  {
    if |ds| == 0 then []
    else
      var m := ApplyAll(inventory, ds[..|ds| - 1]);
      var d := ds[|ds| - 1];
      LowStockAlerts(inventory, ds[..|ds| - 1]) +
      (if d.inventoryId in m && m[d.inventoryId].qty - d.amount <= 2 * d.perUnit
       then [Alert(m[d.inventoryId].name, m[d.inventoryId].qty - d.amount, m[d.inventoryId].unit)]
       else [])
  }

  lemma {:induction false} LowStockAlertsAppend(inventory: map<Id, InventoryItem>, a: seq<Deduction>, b: seq<Deduction>)
    ensures LowStockAlerts(inventory, a + b) ==
            LowStockAlerts(inventory, a) + LowStockAlerts(ApplyAll(inventory, a), b)
    decreases |b|
  {
    if |b| == 0 {
      assert a + b == a;
    } else {
      var b' := b[..|b| - 1];
      assert (a + b)[..|a + b| - 1] == a + b';
      assert (a + b)[|a + b| - 1] == b[|b| - 1];
      LowStockAlertsAppend(inventory, a, b');
      ApplyAllAppend(inventory, a, b');
    }
  }

  lemma {:induction false} DeductRecipeIsPrefix(p: Progress, recipe: seq<RecipeLine>, quantity: int)
    returns (m: nat)
    requires p.failure.None?
    ensures var r := DeductRecipe(p, recipe, quantity);
            && m <= |recipe|
            && (r.failure.None? ==> m == |recipe|)
            && (r.failure.Some? && r.failure.value.StockTooLow? ==>
                  m >= 1 && FailedOn(r.inventory, RecipeDeductions(recipe, quantity)[m - 1], r.failure.value))
            && r.inventory == ApplyAll(p.inventory, RecipeDeductions(recipe, quantity)[..m])
    decreases |recipe|
  {
    if |recipe| == 0 {
      m := 0;
    } else {
      var pre := recipe[..|recipe| - 1];
      var m' := DeductRecipeIsPrefix(p, pre, quantity);
      var ds := RecipeDeductions(recipe, quantity);
      assert RecipeDeductions(pre, quantity)[..m'] == ds[..m'];
      var q := DeductRecipe(p, pre, quantity);
      if q.failure.Some? || recipe[|recipe| - 1].inventoryId !in q.inventory {
        m := m';
        if m' >= 1 {
          assert ds[m' - 1] == RecipeDeductions(pre, quantity)[m' - 1];
        }
      } else {
        m := |recipe|;
        var line := recipe[|recipe| - 1];
        DeductSaves(q, line, quantity);
        assert ds[..m] == ds[..m'] + [ds[m']];
        ApplyAllAppend(p.inventory, ds[..m'], [ds[m']]);
      }
    }
  }

  /** One step on an existing item saves its deduction, and a failing step
      fails on that deduction. */
  lemma DeductSaves(q: Progress, line: RecipeLine, quantity: int)
    requires line.inventoryId in q.inventory
    ensures var r := Deduct(q, line, quantity);
            var d := Deduction(line.inventoryId, line.qtyNeeded * quantity, line.qtyNeeded);
            && r.inventory == ApplyAll(q.inventory, [d])
            && (r.failure != q.failure ==> r.failure.Some? && r.failure.value.StockTooLow? &&
                                           FailedOn(r.inventory, d, r.failure.value))
  {
    var d := Deduction(line.inventoryId, line.qtyNeeded * quantity, line.qtyNeeded);
    assert [d][..0] == [];
  }

  lemma ApplyAllExtended(inventory: map<Id, InventoryItem>, before: seq<Deduction>, tail: seq<Deduction>, m: nat)
    requires m <= |tail|
    ensures ApplyAll(inventory, (before + tail)[..|before| + m]) == ApplyAll(ApplyAll(inventory, before), tail[..m])
  {
    assert (before + tail)[..|before| + m] == before + tail[..m];
    ApplyAllAppend(inventory, before, tail[..m]);
  }

  lemma ApplyAllPrefixKept(inventory: map<Id, InventoryItem>, before: seq<Deduction>, tail: seq<Deduction>, n: nat)
    requires n <= |before|
    ensures ApplyAll(inventory, (before + tail)[..n]) == ApplyAll(inventory, before[..n])
  {
    assert (before + tail)[..n] == before[..n];
  }

  /** Extending a walk's deductions by the deductions of one more recipe:
      a saved prefix of the recipe's part is a saved prefix of the whole. */
  lemma PrefixOfExtended(inventory: map<Id, InventoryItem>, before: seq<Deduction>, tail: seq<Deduction>,
                         m: nat, r: Progress)
    requires m <= |tail|
    requires r.failure.None? ==> m == |tail|
    requires r.failure.Some? && r.failure.value.StockTooLow? ==>
               m >= 1 && FailedOn(r.inventory, tail[m - 1], r.failure.value)
    requires r.inventory == ApplyAll(ApplyAll(inventory, before), tail[..m])
    ensures var n := |before| + m;
            && n <= |before + tail|
            && (r.failure.None? ==> n == |before + tail|)
            && (r.failure.Some? && r.failure.value.StockTooLow? ==>
                  n >= 1 && FailedOn(r.inventory, (before + tail)[n - 1], r.failure.value))
            && r.inventory == ApplyAll(inventory, (before + tail)[..n])
  {
    ApplyAllExtended(inventory, before, tail, m);
  }

  /** A cart line whose product exists is priced, then its recipe is
      deducted. */
  lemma BillLinePriced(p: Progress, products: map<Id, Product>, item: BillItem)
    requires item.productId in products
    ensures BillLine(p, products, item) ==
            DeductRecipe(Priced(p, products[item.productId], item), products[item.productId].recipe, item.quantity)
  {
  }

  /** The deductions of a cart line whose product exists follow those of
      the lines before it. */
  lemma DeductionsStep(products: map<Id, Product>, items: seq<BillItem>)
    requires |items| > 0 && items[|items| - 1].productId in products
    ensures var item := items[|items| - 1];
            Deductions(products, items) ==
            Deductions(products, items[..|items| - 1]) +
            RecipeDeductions(products[item.productId].recipe, item.quantity)
  {
  }

  /** The step of `BillAllIsPrefix` for a cart line whose product exists
      and whose walk starts from a clean prefix. */
  lemma BillLineIsPrefix(inventory: map<Id, InventoryItem>, products: map<Id, Product>, items: seq<BillItem>)
    returns (n: nat)
    requires |items| > 0 && items[|items| - 1].productId in products
    requires var pre := items[..|items| - 1];
             && BillAll(inventory, products, pre).failure.None?
             && BillAll(inventory, products, pre).inventory == ApplyAll(inventory, Deductions(products, pre))
    ensures var p := BillAll(inventory, products, items);
            && n <= |Deductions(products, items)|
            && (p.failure.None? ==> n == |Deductions(products, items)|)
            && (p.failure.Some? && p.failure.value.StockTooLow? ==>
                  n >= 1 && FailedOn(p.inventory, Deductions(products, items)[n - 1], p.failure.value))
            && p.inventory == ApplyAll(inventory, Deductions(products, items)[..n])
  {
    var pre := items[..|items| - 1];
    var item := items[|items| - 1];
    var p := BillAll(inventory, products, pre);
    var before := Deductions(products, pre);
    var product := products[item.productId];
    var tail := RecipeDeductions(product.recipe, item.quantity);
    var m := DeductRecipeIsPrefix(Priced(p, product, item), product.recipe, item.quantity);
    var r := DeductRecipe(Priced(p, product, item), product.recipe, item.quantity);
    PrefixOfExtended(inventory, before, tail, m, r);
    BillAllStep(inventory, products, items);
    BillLinePriced(p, products, item);
    DeductionsStep(products, items);
    n := |before| + m;
  }

  /** Whatever the outcome, the store holds exactly the first `n` deductions
      of the walk, saved in walk order: all of them on success, and on a
      floor failure the failing deduction is among them. Nothing is rolled
      back. */
  lemma {:induction false} BillAllIsPrefix(inventory: map<Id, InventoryItem>, products: map<Id, Product>, items: seq<BillItem>)
    returns (n: nat)
    ensures var p := BillAll(inventory, products, items);
            && n <= |Deductions(products, items)|
            && (p.failure.None? ==> n == |Deductions(products, items)|)
            && (p.failure.Some? && p.failure.value.StockTooLow? ==>
                  n >= 1 && FailedOn(p.inventory, Deductions(products, items)[n - 1], p.failure.value))
            && p.inventory == ApplyAll(inventory, Deductions(products, items)[..n])
    decreases |items|
  {
    if |items| == 0 {
      n := 0;
      return;
    }
    var pre := items[..|items| - 1];
    var item := items[|items| - 1];
    var n' := BillAllIsPrefix(inventory, products, pre);
    var before := Deductions(products, pre);
    var p := BillAll(inventory, products, pre);
    if p.failure.None? && item.productId in products {
      assert before[..n'] == before;
      n := BillLineIsPrefix(inventory, products, items);
    } else {
      n := n';
      var tail := if item.productId in products then RecipeDeductions(products[item.productId].recipe, item.quantity) else [];
      assert Deductions(products, items) == before + tail;
      if n >= 1 {
        assert Deductions(products, items)[n - 1] == before[n - 1];
      }
      ApplyAllPrefixKept(inventory, before, tail, n);
      assert BillAll(inventory, products, items).inventory == p.inventory;
    }
  }

  // ---------------------------------------------------------------- checkout

  /** An empty item list is rejected before any lookup and changes nothing. */
  lemma CheckoutRejectsEmpty(inventory: map<Id, InventoryItem>, products: map<Id, Product>, customerEmail: Option<string>)
    ensures Checkout(inventory, products, [], customerEmail) == Outcome(inventory, Failure(NoItems))
  {
  }

  /** On success the Sale holds one item per cart line, in cart order, with
      the product's price at that moment, and its total is the cart total. */
  lemma CheckoutPricesSale(inventory: map<Id, InventoryItem>, products: map<Id, Product>,
                           items: seq<BillItem>, customerEmail: Option<string>)
    requires Checkout(inventory, products, items, customerEmail).response.Success?
    ensures var sale := Checkout(inventory, products, items, customerEmail).response.value.sale;
            && sale.total == CartTotal(products, items)
            && sale.customerEmail == customerEmail
            && |sale.items| == |items|
            && forall i :: 0 <= i < |items| ==>
                 items[i].productId in products &&
                 sale.items[i] == SaleItem(items[i].productId, items[i].quantity, products[items[i].productId].price)
  {
    BillAllPrices(inventory, products, items);
  }

  /** On success every item has lost exactly the cart's whole demand on it,
      and every item the cart touches is at or above its floor. */
  lemma CheckoutDeductsDemand(inventory: map<Id, InventoryItem>, products: map<Id, Product>,
                              items: seq<BillItem>, customerEmail: Option<string>)
    requires Checkout(inventory, products, items, customerEmail).response.Success?
    ensures var after := Checkout(inventory, products, items, customerEmail).inventory;
            && after.Keys == inventory.Keys
            && (forall k :: k in inventory ==>
                  after[k] == inventory[k].(qty := inventory[k].qty - Demand(products, items, k)))
            && (forall k :: k in after && Touches(products, items, k) ==> after[k].qty >= after[k].minQty)
  {
    BillAllDeducts(inventory, products, items);
    BillAllKeepsItems(inventory, products, items);
    BillAllFloors(inventory, products, items);
  }

  /** A cart line naming an unknown product fails the checkout: no Sale. */
  lemma UnknownProductRejected(inventory: map<Id, InventoryItem>, products: map<Id, Product>,
                               items: seq<BillItem>, customerEmail: Option<string>, i: nat)
    requires i < |items| && items[i].productId !in products
    ensures Checkout(inventory, products, items, customerEmail).response.Failure?
  {
    if BillAll(inventory, products, items).failure.None? {
      BillAllResolves(inventory, products, items);
    }
  }

  /** A recipe naming an unknown inventory item fails the checkout: no Sale. */
  lemma UnknownInventoryRejected(inventory: map<Id, InventoryItem>, products: map<Id, Product>,
                                 items: seq<BillItem>, customerEmail: Option<string>, i: nat, j: nat)
    requires i < |items| && items[i].productId in products
    requires j < |products[items[i].productId].recipe|
    requires products[items[i].productId].recipe[j].inventoryId !in inventory
    ensures Checkout(inventory, products, items, customerEmail).response.Failure?
  {
    if BillAll(inventory, products, items).failure.None? {
      BillAllResolves(inventory, products, items);
    }
  }

  /** The source's non-atomicity: after any checkout, failed or not, the
      store holds the first `n` deductions of the walk. A failed one is not
      rolled back, and when the floor check failed the last deduction kept
      is the one the error reports. */
  lemma CheckoutKeepsSavedDeductions(inventory: map<Id, InventoryItem>, products: map<Id, Product>,
                                     items: seq<BillItem>, customerEmail: Option<string>)
    ensures var o := Checkout(inventory, products, items, customerEmail);
            exists n :: 0 <= n <= |Deductions(products, items)| &&
              o.inventory == ApplyAll(inventory, Deductions(products, items)[..n]) &&
              (o.response.Success? ==> n == |Deductions(products, items)|) &&
              (o.response.Failure? && o.response.error.StockTooLow? ==>
                 n >= 1 && FailedOn(o.inventory, Deductions(products, items)[n - 1], o.response.error))
  {
    var n := BillAllIsPrefix(inventory, products, items);
    if |items| == 0 {
      assert Deductions(products, items)[..0] == [];
      assert ApplyAll(inventory, Deductions(products, items)[..0]) == inventory;
    }
  }

  /** A successful checkout had a non-empty cart, every product and item
      existed, every quantity was at least 1 (the Sale's own check), and the
      cart-wide demand kept each touched item at or above its floor. This
      direction holds for any catalog. */
  lemma CheckoutSuccessConditions(inventory: map<Id, InventoryItem>, products: map<Id, Product>,
                                  items: seq<BillItem>, customerEmail: Option<string>)
    requires Checkout(inventory, products, items, customerEmail).response.Success?
    ensures |items| > 0 && Resolvable(inventory, products, items) &&
            PositiveQuantities(items) && FloorsHold(inventory, products, items)
  {
    var o := Checkout(inventory, products, items, customerEmail);
    BillAllResolves(inventory, products, items);
    BillAllPrices(inventory, products, items);
    CheckoutDeductsDemand(inventory, products, items, customerEmail);
    BillAllKeepsItems(inventory, products, items);
    var sale := o.response.value.sale;
    assert PositiveQuantities(items) by {
      forall i | 0 <= i < |items| ensures items[i].quantity >= 1 {
        assert sale.items[i].quantity >= 1;
      }
    }
  }

  /** With no recipe giving stock back, a checkout succeeds exactly when
      the cart is non-empty, every product and item exists, every quantity
      is at least 1, and the cart-wide demand on each touched item keeps it
      at or above its floor. The per-step check of the walk and the
      aggregated check agree. */
  lemma CheckoutSucceedsIff(inventory: map<Id, InventoryItem>, products: map<Id, Product>,
                            items: seq<BillItem>, customerEmail: Option<string>)
    requires NonNegativeRecipes(products)
    ensures Checkout(inventory, products, items, customerEmail).response.Success? <==>
            |items| > 0 && Resolvable(inventory, products, items) &&
            PositiveQuantities(items) && FloorsHold(inventory, products, items)
  {
    if Checkout(inventory, products, items, customerEmail).response.Success? {
      CheckoutSuccessConditions(inventory, products, items, customerEmail);
    }
    if |items| > 0 && Resolvable(inventory, products, items) &&
       PositiveQuantities(items) && FloorsHold(inventory, products, items) {
      BillAllPasses(inventory, products, items);
      BillAllPrices(inventory, products, items);
    }
  }

  // ---------------------------------------------------------------- alerts and floor failures

  /** An alert names an item of `inventory` (by name and unit) that was still
      at or above its floor when the alert was raised. */
  predicate AboveFloorAlert(inventory: map<Id, InventoryItem>, a: Alert) {
    exists k :: k in inventory && inventory[k].name == a.inventoryItem &&
                inventory[k].unit == a.unit && inventory[k].minQty <= a.remainingQty
  }

  predicate AlertsAboveFloor(inventory: map<Id, InventoryItem>, alerts: seq<Alert>) {
    forall i :: 0 <= i < |alerts| ==> AboveFloorAlert(inventory, alerts[i])
  }

  lemma {:induction false} DeductRecipeAlerts(start: map<Id, InventoryItem>, p: Progress, recipe: seq<RecipeLine>, quantity: int)
    requires SameItemsUpToQty(start, p.inventory) && AlertsAboveFloor(start, p.alerts)
    ensures AlertsAboveFloor(start, DeductRecipe(p, recipe, quantity).alerts)
    decreases |recipe|
  {
    if |recipe| > 0 {
      var pre := recipe[..|recipe| - 1];
      DeductRecipeAlerts(start, p, pre, quantity);
      DeductRecipeKeepsItems(p, pre, quantity);
      var q := DeductRecipe(p, pre, quantity);
      var id := recipe[|recipe| - 1].inventoryId;
      if q.failure.None? && id in q.inventory {
        var r := Deduct(q, recipe[|recipe| - 1], quantity);
        if |r.alerts| > |q.alerts| {
          assert AboveFloorAlert(start, r.alerts[|r.alerts| - 1]) by {
            assert id in start;
          }
          assert r.alerts[..|q.alerts|] == q.alerts;
        }
      }
    }
  }

  /** Every alert of a successful checkout names an item of the store that
      had not fallen below its floor: the floor check runs before the alert
      check. */
  lemma {:induction false} CheckoutAlertsAboveFloor(inventory: map<Id, InventoryItem>, products: map<Id, Product>,
                                                    items: seq<BillItem>, customerEmail: Option<string>)
    requires Checkout(inventory, products, items, customerEmail).response.Success?
    ensures AlertsAboveFloor(inventory, Checkout(inventory, products, items, customerEmail).response.value.alerts)
  {
    BillAllAlerts(inventory, products, items);
  }

  lemma {:induction false} BillAllAlerts(inventory: map<Id, InventoryItem>, products: map<Id, Product>, items: seq<BillItem>)
    ensures AlertsAboveFloor(inventory, BillAll(inventory, products, items).alerts)
    decreases |items|
  {
    if |items| > 0 {
      var pre := items[..|items| - 1];
      var item := items[|items| - 1];
      BillAllAlerts(inventory, products, pre);
      BillAllKeepsItems(inventory, products, pre);
      var p := BillAll(inventory, products, pre);
      if p.failure.None? && item.productId in products {
        var product := products[item.productId];
        DeductRecipeAlerts(inventory, Priced(p, product, item), product.recipe, item.quantity);
        assert BillAll(inventory, products, items) == DeductRecipe(Priced(p, product, item), product.recipe, item.quantity);
      }
    }
  }

  /** A recipe walk that gets through saves exactly the recipe's deductions
      and adds exactly the alerts the reference raises for them. */
  lemma {:induction false} DeductRecipeRaisesAlerts(p: Progress, recipe: seq<RecipeLine>, quantity: int)
    requires p.failure.None?
    ensures var r := DeductRecipe(p, recipe, quantity);
            var ds := RecipeDeductions(recipe, quantity);
            r.failure.None? ==>
              && r.inventory == ApplyAll(p.inventory, ds)
              && r.alerts == p.alerts + LowStockAlerts(p.inventory, ds)
    decreases |recipe|
  {
    var ds := RecipeDeductions(recipe, quantity);
    if |recipe| == 0 {
      assert p.alerts + [] == p.alerts;
    } else {
      var pre := recipe[..|recipe| - 1];
      DeductRecipeRaisesAlerts(p, pre, quantity);
      assert ds[..|ds| - 1] == RecipeDeductions(pre, quantity);
      var q := DeductRecipe(p, pre, quantity);
      var line := recipe[|recipe| - 1];
      var d := Deduction(line.inventoryId, line.qtyNeeded * quantity, line.qtyNeeded);
      assert ds == RecipeDeductions(pre, quantity) + [d];
      if q.failure.None? && Deduct(q, line, quantity).failure.None? {
        DeductRaisesAlert(q, line, quantity);
        LowStockAlertsAppend(p.inventory, RecipeDeductions(pre, quantity), [d]);
        ApplyAllAppend(p.inventory, RecipeDeductions(pre, quantity), [d]);
      }
    }
  }

  /** One step that passes the floor check saves its deduction and raises
      the alert the reference raises for it. */
  lemma DeductRaisesAlert(q: Progress, line: RecipeLine, quantity: int)
    requires q.failure.None? && Deduct(q, line, quantity).failure.None?
    ensures var r := Deduct(q, line, quantity);
            var d := Deduction(line.inventoryId, line.qtyNeeded * quantity, line.qtyNeeded);
            && r.inventory == ApplyAll(q.inventory, [d])
            && r.alerts == q.alerts + LowStockAlerts(q.inventory, [d])
  {
    var d := Deduction(line.inventoryId, line.qtyNeeded * quantity, line.qtyNeeded);
    assert [d][..0] == [];
  }

  /** The step of `BillAllRaisesAlerts` for a cart line whose product
      exists, after a prefix that got through. */
  lemma BillLineRaisesAlerts(inventory: map<Id, InventoryItem>, products: map<Id, Product>, items: seq<BillItem>)
    requires |items| > 0 && items[|items| - 1].productId in products
    requires var pre := items[..|items| - 1];
             var p := BillAll(inventory, products, pre);
             && p.failure.None?
             && p.inventory == ApplyAll(inventory, Deductions(products, pre))
             && p.alerts == LowStockAlerts(inventory, Deductions(products, pre))
    ensures var p := BillAll(inventory, products, items);
            var ds := Deductions(products, items);
            p.failure.None? ==>
              && p.inventory == ApplyAll(inventory, ds)
              && p.alerts == LowStockAlerts(inventory, ds)
  {
    var pre := items[..|items| - 1];
    var item := items[|items| - 1];
    var p := BillAll(inventory, products, pre);
    var product := products[item.productId];
    var before := Deductions(products, pre);
    var tail := RecipeDeductions(product.recipe, item.quantity);
    assert Deductions(products, items) == before + tail;
    DeductRecipeRaisesAlerts(Priced(p, product, item), product.recipe, item.quantity);
    assert BillAll(inventory, products, items) == DeductRecipe(Priced(p, product, item), product.recipe, item.quantity);
    LowStockAlertsAppend(inventory, before, tail);
    ApplyAllAppend(inventory, before, tail);
  }

  lemma {:induction false} BillAllRaisesAlerts(inventory: map<Id, InventoryItem>, products: map<Id, Product>, items: seq<BillItem>)
    ensures var p := BillAll(inventory, products, items);
            var ds := Deductions(products, items);
            p.failure.None? ==>
              && p.inventory == ApplyAll(inventory, ds)
              && p.alerts == LowStockAlerts(inventory, ds)
    decreases |items|
  {
    if |items| > 0 {
      var pre := items[..|items| - 1];
      var item := items[|items| - 1];
      BillAllRaisesAlerts(inventory, products, pre);
      if BillAll(inventory, products, pre).failure.None? && item.productId in products {
        BillLineRaisesAlerts(inventory, products, items);
      }
    }
  }

  /** The alerts of a successful checkout are exactly the reference's: one
      per recipe line, in walk order, whose item is left at most twice that
      line's per-unit need, with the quantity left at that point. */
  lemma CheckoutRaisesAlerts(inventory: map<Id, InventoryItem>, products: map<Id, Product>,
                             items: seq<BillItem>, customerEmail: Option<string>)
    requires Checkout(inventory, products, items, customerEmail).response.Success?
    ensures Checkout(inventory, products, items, customerEmail).response.value.alerts ==
            LowStockAlerts(inventory, Deductions(products, items))
  {
    BillAllRaisesAlerts(inventory, products, items);
  }

  /** The item a floor failure reports, as it was left in the store. */
  predicate LeftBelowFloor(inventory: map<Id, InventoryItem>, e: BillError)
    requires e.StockTooLow?
  {
    && e.after < e.minQty
    && exists k :: k in inventory && inventory[k].name == e.name &&
                   inventory[k].minQty == e.minQty && inventory[k].qty == e.after
  }

  lemma {:induction false} DeductRecipeBelowFloor(p: Progress, recipe: seq<RecipeLine>, quantity: int)
    requires p.failure.None?
    ensures var r := DeductRecipe(p, recipe, quantity);
            r.failure.Some? && r.failure.value.StockTooLow? ==> LeftBelowFloor(r.inventory, r.failure.value)
    decreases |recipe|
  {
    if |recipe| > 0 {
      DeductRecipeBelowFloor(p, recipe[..|recipe| - 1], quantity);
      var q := DeductRecipe(p, recipe[..|recipe| - 1], quantity);
      var id := recipe[|recipe| - 1].inventoryId;
      if q.failure.None? && id in q.inventory {
        var r := Deduct(q, recipe[|recipe| - 1], quantity);
        if r.failure.Some? {
          assert id in r.inventory;
        }
      }
    }
  }

  /** A checkout refused on the floor check leaves the reported item in the
      store at the reported quantity, below its floor: the failing deduction
      was saved before the check and is not undone. */
  lemma {:induction false} CheckoutLeavesItemBelowFloor(inventory: map<Id, InventoryItem>, products: map<Id, Product>,
                                                        items: seq<BillItem>, customerEmail: Option<string>)
    requires var o := Checkout(inventory, products, items, customerEmail);
             o.response.Failure? && o.response.error.StockTooLow?
    ensures var o := Checkout(inventory, products, items, customerEmail);
            LeftBelowFloor(o.inventory, o.response.error)
  {
    BillAllBelowFloor(inventory, products, items);
  }

  lemma {:induction false} BillAllBelowFloor(inventory: map<Id, InventoryItem>, products: map<Id, Product>, items: seq<BillItem>)
    ensures var r := BillAll(inventory, products, items);
            r.failure.Some? && r.failure.value.StockTooLow? ==> LeftBelowFloor(r.inventory, r.failure.value)
    decreases |items|
  {
    if |items| > 0 {
      var pre := items[..|items| - 1];
      var item := items[|items| - 1];
      BillAllBelowFloor(inventory, products, pre);
      var p := BillAll(inventory, products, pre);
      if p.failure.None? && item.productId in products {
        var product := products[item.productId];
        DeductRecipeBelowFloor(Priced(p, product, item), product.recipe, item.quantity);
        assert BillAll(inventory, products, items) == DeductRecipe(Priced(p, product, item), product.recipe, item.quantity);
      }
    }
  }
}
