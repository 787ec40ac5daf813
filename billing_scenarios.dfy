/** Worked checkouts on a one-item pantry: flour with a floor of 10 kg,
    and bread at 5 that needs 20 kg of flour per loaf. */
module BillingScenarios {
  import opened Wrappers
  import opened Models
  import opened BillingController
  import opened ProductRoutes
  import opened BillingPage

  const FlourId: Id := 1
  const BreadId: Id := 2

  function Pantry(flour: int): map<Id, InventoryItem> {
    map[FlourId := InventoryItem("Flour", flour, "kg", 10)]
  }

  function Menu(): map<Id, Product> {
    map[BreadId := Product("Bread", 5, [RecipeLine(FlourId, 20)])]
  }

  /** Saving a new flour quantity yields the pantry with that quantity. */
  lemma Saved(flour: int, after: int)
    ensures Pantry(flour)[FlourId := Pantry(flour)[FlourId].(qty := after)] == Pantry(after)
  {
  }

  /** A bread line deducts flour once, from wherever the walk stands. */
  lemma BreadLine(p: Progress, quantity: int)
    requires p.failure.None?
    ensures BillLine(p, Menu(), BillItem(BreadId, quantity)) ==
            Deduct(p.(total := p.total + 5 * quantity,
                      saleItems := p.saleItems + [SaleItem(BreadId, quantity, 5)]),
                   RecipeLine(FlourId, 20), quantity)
  {
    var recipe := [RecipeLine(FlourId, 20)];
    var priced := p.(total := p.total + 5 * quantity,
                     saleItems := p.saleItems + [SaleItem(BreadId, quantity, 5)]);
    assert Menu()[BreadId] == Product("Bread", 5, recipe);
    assert recipe[..0] == [];
    assert DeductRecipe(priced, recipe[..0], quantity) == priced;
  }

  lemma OneLine(inventory: map<Id, InventoryItem>, item: BillItem)
    ensures BillAll(inventory, Menu(), [item]) == BillLine(Progress(inventory, 0, [], [], None), Menu(), item)
  {
    assert [item][..0] == [];
  }

  /** One loaf from 100 kg: 80 kg left, total 5, and no alert since 80 is
      above twice the 20 kg a loaf needs. */
  lemma PlentyOfFlour()
    ensures Checkout(Pantry(100), Menu(), [BillItem(BreadId, 1)], None) ==
            Outcome(Pantry(80), Success(Receipt(Sale([SaleItem(BreadId, 1, 5)], 5, None), [])))
  {
    OneLine(Pantry(100), BillItem(BreadId, 1));
    var p0 := Progress(Pantry(100), 0, [], [], None);
    BreadLine(p0, 1);
    Saved(100, 80);
    var p1 := Progress(Pantry(80), 5, [SaleItem(BreadId, 1, 5)], [], None);
    assert Deduct(p0.(total := 5, saleItems := [SaleItem(BreadId, 1, 5)]), RecipeLine(FlourId, 20), 1) == p1;
    assert BillAll(Pantry(100), Menu(), [BillItem(BreadId, 1)]) == p1;
    assert ValidSale(Sale([SaleItem(BreadId, 1, 5)], 5, None));
  }

  /** One loaf from 45 kg: 25 kg left, above the floor but at most 40 kg,
      so the sale goes through with one alert. */
  lemma FlourRunningLow()
    ensures Checkout(Pantry(45), Menu(), [BillItem(BreadId, 1)], Some("a@b")) ==
            Outcome(Pantry(25), Success(Receipt(Sale([SaleItem(BreadId, 1, 5)], 5, Some("a@b")),
                                                [Alert("Flour", 25, "kg")])))
  {
    OneLine(Pantry(45), BillItem(BreadId, 1));
    var p0 := Progress(Pantry(45), 0, [], [], None);
    BreadLine(p0, 1);
    Saved(45, 25);
    var p1 := Progress(Pantry(25), 5, [SaleItem(BreadId, 1, 5)], [Alert("Flour", 25, "kg")], None);
    assert Deduct(p0.(total := 5, saleItems := [SaleItem(BreadId, 1, 5)]), RecipeLine(FlourId, 20), 1) == p1;
    assert BillAll(Pantry(45), Menu(), [BillItem(BreadId, 1)]) == p1;
    assert ValidSale(Sale([SaleItem(BreadId, 1, 5)], 5, Some("a@b")));
  }

  /** One loaf from 25 kg would leave 5 kg, below the floor of 10: the
      checkout fails, and the store keeps the saved 5 kg. */
  lemma FlourBelowFloor()
    ensures Checkout(Pantry(25), Menu(), [BillItem(BreadId, 1)], None) ==
            Outcome(Pantry(5), Failure(StockTooLow("Flour", 10, 25, 5)))
  {
    OneLine(Pantry(25), BillItem(BreadId, 1));
    BreadLine(Progress(Pantry(25), 0, [], [], None), 1);
    Saved(25, 5);
  }

  /** Two cart lines for the same product are walked one after the other:
      their deductions add up, each is priced on its own, and each raises
      its own alert for the same item. */
  lemma RepeatedLines()
    ensures Checkout(Pantry(60), Menu(), [BillItem(BreadId, 1), BillItem(BreadId, 1)], None) ==
            Outcome(Pantry(20), Success(Receipt(Sale([SaleItem(BreadId, 1, 5), SaleItem(BreadId, 1, 5)], 10, None),
                                                [Alert("Flour", 40, "kg"), Alert("Flour", 20, "kg")])))
  {
    var items := [BillItem(BreadId, 1), BillItem(BreadId, 1)];
    assert items[..1] == [BillItem(BreadId, 1)];
    OneLine(Pantry(60), BillItem(BreadId, 1));
    var p0 := Progress(Pantry(60), 0, [], [], None);
    BreadLine(p0, 1);
    Saved(60, 40);
    var p1 := Progress(Pantry(40), 5, [SaleItem(BreadId, 1, 5)], [Alert("Flour", 40, "kg")], None);
    assert Deduct(p0.(total := 5, saleItems := [SaleItem(BreadId, 1, 5)]), RecipeLine(FlourId, 20), 1) == p1;
    assert BillAll(Pantry(60), Menu(), items[..1]) == p1;
    BreadLine(p1, 1);
    Saved(40, 20);
    var sold := [SaleItem(BreadId, 1, 5), SaleItem(BreadId, 1, 5)];
    var p2 := Progress(Pantry(20), 10, sold, [Alert("Flour", 40, "kg"), Alert("Flour", 20, "kg")], None);
    assert Deduct(p1.(total := 10, saleItems := sold), RecipeLine(FlourId, 20), 1) == p2;
    assert BillAll(Pantry(60), Menu(), items) == p2;
    assert ValidSale(Sale(sold, 10, None));
  }

  /** A quantity of -1 is not refused before the walk: the deduction of
      -20 kg is saved, so the flour grows to 45 kg, and only then is the
      Sale refused. */
  lemma NegativeQuantityRestocks()
    ensures Checkout(Pantry(25), Menu(), [BillItem(BreadId, -1)], None) ==
            Outcome(Pantry(45), Failure(SaleRejected))
  {
    OneLine(Pantry(25), BillItem(BreadId, -1));
    var p0 := Progress(Pantry(25), 0, [], [], None);
    BreadLine(p0, -1);
    Saved(25, 45);
    var p1 := Progress(Pantry(45), -5, [SaleItem(BreadId, -1, 5)], [], None);
    assert Deduct(p0.(total := -5, saleItems := [SaleItem(BreadId, -1, 5)]), RecipeLine(FlourId, 20), -1) == p1;
    assert BillAll(Pantry(25), Menu(), [BillItem(BreadId, -1)]) == p1;
    assert [SaleItem(BreadId, -1, 5)][0].quantity < 1;
  }

  // ---------------------------------------------------------------- the page's check is per product

  const RollId: Id := 3

  /** Bread and rolls, each needing 20 kg of flour. */
  function Bakery(): map<Id, Product> {
    map[BreadId := Product("Bread", 5, [RecipeLine(FlourId, 20)]), RollId := Product("Roll", 2, [RecipeLine(FlourId, 20)])]
  }

  /** The product list the page loads from a 45 kg pantry. */
  function Listed(): seq<ProductView> {
    [View(BreadId, Bakery()[BreadId], Pantry(45)), View(RollId, Bakery()[RollId], Pantry(45))]
  }

  /** A cart line of a one-ingredient flour product deducts flour once. */
  lemma FlourLine(p: Progress, products: map<Id, Product>, pid: Id, quantity: int)
    requires p.failure.None? && pid in products && products[pid].recipe == [RecipeLine(FlourId, 20)]
    ensures BillLine(p, products, BillItem(pid, quantity)) ==
            Deduct(p.(total := p.total + products[pid].price * quantity,
                      saleItems := p.saleItems + [SaleItem(pid, quantity, products[pid].price)]),
                   RecipeLine(FlourId, 20), quantity)
  {
    var recipe := [RecipeLine(FlourId, 20)];
    var priced := p.(total := p.total + products[pid].price * quantity,
                     saleItems := p.saleItems + [SaleItem(pid, quantity, products[pid].price)]);
    assert recipe[..0] == [];
    assert DeductRecipe(priced, recipe[..0], quantity) == priced;
  }

  /** The page lets a cashier put one loaf and one roll in the cart from
      45 kg of flour, since each alone needs 20 kg of the 35 kg above the
      floor; the server then refuses that cart, because together they need
      40 kg, and keeps the 5 kg it saved. */
  lemma PerProductCheckIsNotCartWide()
    ensures var cart := AddToCart(AddToCart([], Listed(), Some(BreadId)), Listed(), Some(RollId));
            && cart == [CartLine(BreadId, "Bread", 5, 1), CartLine(RollId, "Roll", 2, 1)]
            && CheckoutRequest(cart, "a@b", "") == Some(SaleRequest([BillItem(BreadId, 1), BillItem(RollId, 1)], "a@b"))
    ensures Checkout(Pantry(45), Bakery(), [BillItem(BreadId, 1), BillItem(RollId, 1)], Some("a@b")) ==
            Outcome(Pantry(5), Failure(StockTooLow("Flour", 10, 25, 5)))
  {
    var flour := StockRow(FlourId, Pantry(45)[FlourId]);
    assert Listed()[0].recipe == [PopulatedLine(Some(flour), 20)];
    assert Listed()[1].recipe == [PopulatedLine(Some(flour), 20)];
    var one := AddToCart([], Listed(), Some(BreadId));
    assert one == [CartLine(BreadId, "Bread", 5, 1)];
    assert FindProduct(Listed(), RollId) == Some(Listed()[1]);
    assert FindLine(one, RollId).None?;
    var cart := [CartLine(BreadId, "Bread", 5, 1), CartLine(RollId, "Roll", 2, 1)];
    assert AddToCart(one, Listed(), Some(RollId)) == cart;
    assert CheckoutRequest(cart, "a@b", "").value.items == [BillItem(BreadId, 1), BillItem(RollId, 1)];
    var items := [BillItem(BreadId, 1), BillItem(RollId, 1)];
    assert items[..1] == [BillItem(BreadId, 1)];
    assert [BillItem(BreadId, 1)][..0] == [];
    var p0 := Progress(Pantry(45), 0, [], [], None);
    FlourLine(p0, Bakery(), BreadId, 1);
    Saved(45, 25);
    var p1 := Progress(Pantry(25), 5, [SaleItem(BreadId, 1, 5)], [Alert("Flour", 25, "kg")], None);
    assert Deduct(p0.(total := 5, saleItems := [SaleItem(BreadId, 1, 5)]), RecipeLine(FlourId, 20), 1) == p1;
    assert BillAll(Pantry(45), Bakery(), items[..1]) == p1;
    FlourLine(p1, Bakery(), RollId, 1);
    Saved(25, 5);
  }
}
