/** The three Mongoose schemas of the store: inventory items (raw
    materials), products with their recipes, and sales. A schema's
    `required`, `default` and `min` options become a constructor function
    that applies the defaults and reports the first failing path, and a
    validity predicate that every stored document satisfies. */
module Models {
  import opened Wrappers

  /** Document ids (Mongo ObjectIds) are abstract naturals. */
  type Id = nat

  /** The first schema path whose validator fails. */
  datatype SchemaError = Required(path: string) | BelowMin(path: string)

  // ---------------------------------------------------------------- Inventory

  /** A raw material: how much is on hand and the floor below which a sale
      must not push it. Neither number has a lower bound in the schema. */
  datatype InventoryItem = InventoryItem(name: string, qty: int, unit: string, minQty: int)

  const DefaultQty: int := 0
  const DefaultMinQty: int := 0

  /** `required: true` on a String path rejects the empty string. */
  predicate ValidInventoryItem(item: InventoryItem) {
    item.name != "" && item.unit != ""
  }

  /** The shortage predicate shared by the `/shortages` query and the
      inventory page: at or below the floor. */
  predicate AtOrBelowMinimum(item: InventoryItem) {
    item.qty <= item.minQty
  }

  /** `new Inventory({name, qty, unit, minQty})` followed by validation; a
      missing number takes the schema default. */
  function NewInventoryItem(name: string, qty: Option<int>, unit: string, minQty: Option<int>)
    : (r: Result<InventoryItem, SchemaError>)
    ensures r.Success? <==> name != "" && unit != ""
    ensures r.Success? ==> ValidInventoryItem(r.value)
    ensures r.Success? ==> r.value.name == name && r.value.unit == unit
    ensures r.Success? ==> r.value.qty == (if qty.Some? then qty.value else DefaultQty)
    ensures r.Success? ==> r.value.minQty == (if minQty.Some? then minQty.value else DefaultMinQty)
    ensures r.Failure? ==> r.error == Required(if name == "" then "name" else "unit")
  {
    if name == "" then Failure(Required("name"))
    else if unit == "" then Failure(Required("unit"))
    else Success(InventoryItem(name, qty.GetOr(DefaultQty), unit, minQty.GetOr(DefaultMinQty)))
  }

  // ---------------------------------------------------------------- Product

  /** One ingredient of a recipe: which raw material, and how much of it
      one unit of the product consumes. No sign constraint is enforced. */
  datatype RecipeLine = RecipeLine(inventoryId: Id, qtyNeeded: int)

  datatype Product = Product(name: string, price: int, recipe: seq<RecipeLine>)

  /** A recipe line as posted, before casting: either field may be absent. */
  datatype RecipeInput = RecipeInput(inventoryId: Option<Id>, qtyNeeded: Option<int>)

  const DefaultQtyNeeded: int := 5

  predicate ValidProduct(p: Product) {
    p.name != "" && p.price >= 0
  }

  /** Casting a posted recipe array into sub-documents: every line needs an
      inventory id, and a missing `qtyNeeded` becomes 5. */
  function NewRecipe(lines: seq<RecipeInput>): (r: Result<seq<RecipeLine>, SchemaError>)
    ensures r.Success? <==> forall j :: 0 <= j < |lines| ==> lines[j].inventoryId.Some?
    ensures r.Success? ==> |r.value| == |lines|
    ensures r.Success? ==> forall j :: 0 <= j < |lines| ==>
              r.value[j] == RecipeLine(lines[j].inventoryId.value, lines[j].qtyNeeded.GetOr(DefaultQtyNeeded))
    ensures r.Failure? ==> r.error == Required("recipe.inventoryId")
  {
    if |lines| == 0 then Success([])
    else
      var first := lines[0];
      var rest := NewRecipe(lines[1..]);
      if first.inventoryId.None? then Failure(Required("recipe.inventoryId"))
      else if rest.Failure? then rest
      else Success([RecipeLine(first.inventoryId.value, first.qtyNeeded.GetOr(DefaultQtyNeeded))] + rest.value)
  }

  /** `new Product({name, price, recipe})` followed by validation, in schema
      path order: name, price (required, at least 0), recipe. A missing
      recipe is the empty array. */
  function NewProduct(name: string, price: Option<int>, recipe: Option<seq<RecipeInput>>)
    : (r: Result<Product, SchemaError>)
    ensures r.Success? <==>
              name != "" && price.Some? && price.value >= 0 &&
              (recipe.Some? ==> NewRecipe(recipe.value).Success?)
    ensures r.Success? ==> ValidProduct(r.value) && r.value.name == name && r.value.price == price.value
    ensures r.Success? ==> r.value.recipe == (if recipe.Some? then NewRecipe(recipe.value).value else [])
    ensures price.Some? && price.value < 0 && name != "" ==> r == Failure(BelowMin("price"))
  {
    if name == "" then Failure(Required("name"))
    else if price.None? then Failure(Required("price"))
    else if price.value < 0 then Failure(BelowMin("price"))
    else
      var lines := if recipe.Some? then NewRecipe(recipe.value) else Success([]);
      if lines.Failure? then Failure(lines.error)
      else Success(Product(name, price.value, lines.value))
  }

  // ---------------------------------------------------------------- Sale

  /** A sold line: the product, how many, and the product's price at the
      moment of sale (a snapshot, not a reference). */
  datatype SaleItem = SaleItem(product: Id, quantity: int, priceAtSale: int)

  /** A completed sale; the customer e-mail is optional. */
  datatype Sale = Sale(items: seq<SaleItem>, total: int, customerEmail: Option<string>)

  /** `min: 1` on every item's quantity; the other paths are always present. */
  predicate ValidSale(s: Sale) {
    forall j :: 0 <= j < |s.items| ==> s.items[j].quantity >= 1
  }

  /** A line of the checkout request body: `{productId, quantity}`. */
  datatype BillItem = BillItem(productId: Id, quantity: int)

  /** An inventory document together with its id, as the client receives it. */
  datatype StockRow = StockRow(id: Id, item: InventoryItem)

  /** The first listed document whose id is `id`, as the pages look a
      product or an item up by `_id` in what they fetched. */
  function FindById<T(==)>(rows: seq<T>, id: Id, idOf: T -> Id): (r: Option<T>)
    ensures r.Some? ==> r.value in rows && idOf(r.value) == id
    ensures r.None? <==> forall i :: 0 <= i < |rows| ==> idOf(rows[i]) != id
    ensures r.Some? ==> exists i :: 0 <= i < |rows| && rows[i] == r.value &&
                                    forall j :: 0 <= j < i ==> idOf(rows[j]) != id
  {
    if |rows| == 0 then None
    else if idOf(rows[0]) == id then Some(rows[0])
    else
      var r := FindById(rows[1..], id, idOf);
      if r.Some? then
        var i :| 0 <= i < |rows[1..]| && rows[1..][i] == r.value &&
                 forall j :: 0 <= j < i ==> idOf(rows[1..][j]) != id;
        assert rows[i + 1] == r.value;
        assert forall j :: 0 <= j < i + 1 ==> idOf(rows[j]) != id by {
          forall j | 0 <= j < i + 1 ensures idOf(rows[j]) != id {
            if j > 0 { assert rows[j] == rows[1..][j - 1]; }
          }
        }
        r
      else r
  }
}
