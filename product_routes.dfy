/** The `/api/products` handlers: list with populated recipes, create,
    delete, and partial update. */
module ProductRoutes {
  import opened Wrappers
  import opened Models
  import opened Database

  datatype RouteError = NotFound | Invalid(reason: SchemaError)

  /** The JSON body of POST and PUT: absent fields are `None`. */
  datatype ProductBody = ProductBody(name: string, price: Option<int>, recipe: Option<seq<RecipeInput>>)

  // ---------------------------------------------------------------- GET /

  /** A recipe line as the list query returns it: `inventoryId` is replaced
      by the referenced document, or by null once that item is gone. */
  datatype PopulatedLine = PopulatedLine(ref: Option<StockRow>, qtyNeeded: int)

  function PopulateRecipe(recipe: seq<RecipeLine>, inventory: map<Id, InventoryItem>): (r: seq<PopulatedLine>)
    ensures |r| == |recipe|
    ensures forall j :: 0 <= j < |recipe| ==>
              && r[j].qtyNeeded == recipe[j].qtyNeeded
              && (r[j].ref.Some? <==> recipe[j].inventoryId in inventory)
              && (r[j].ref.Some? ==>
                    r[j].ref.value == StockRow(recipe[j].inventoryId, inventory[recipe[j].inventoryId]))
  {
    seq(|recipe|, j requires 0 <= j < |recipe| =>
      var id := recipe[j].inventoryId;
      PopulatedLine(if id in inventory then Some(StockRow(id, inventory[id])) else None, recipe[j].qtyNeeded))
  }

  /** A product as the list query returns it. */
  datatype ProductView = ProductView(id: Id, name: string, price: int, recipe: seq<PopulatedLine>)

  function View(id: Id, p: Product, inventory: map<Id, InventoryItem>): ProductView {
    ProductView(id, p.name, p.price, PopulateRecipe(p.recipe, inventory))
  }

  // ---------------------------------------------------------------- POST /

  /** POST: a product that passes validation is inserted under a fresh id
      and nothing else changes; one that fails leaves the store unchanged. */
  method Post(db: Store, name: string, price: Option<int>, recipe: Option<seq<RecipeInput>>)
    returns (r: Result<Id, RouteError>)
    requires db.Valid()
    modifies db
    ensures db.Valid()
    ensures db.inventory == old(db.inventory) && db.sales == old(db.sales)
    ensures match NewProduct(name, price, recipe)
            case Failure(e) => r == Failure(Invalid(e)) && db.products == old(db.products)
            case Success(p) =>
              && r == Success(old(db.nextId)) && r.value !in old(db.products)
              && db.products == old(db.products)[r.value := p]
  {
    var created := NewProduct(name, price, recipe);
    if created.Failure? {
      return Failure(Invalid(created.error));
    }
    var id := db.FreshId();
    db.products := db.products[id := created.value];
    r := Success(id);
  }

  // ---------------------------------------------------------------- DELETE /:id

  /** DELETE: a missing id is not found and nothing changes; otherwise only
      that product goes. Past sales keep their own price snapshots. */
  method Delete(db: Store, id: Id) returns (r: Result<(), RouteError>)
    requires db.Valid()
    modifies db
    ensures db.Valid()
    ensures db.inventory == old(db.inventory) && db.sales == old(db.sales)
    ensures id !in old(db.products) ==> r == Failure(NotFound) && db.products == old(db.products)
    ensures id in old(db.products) ==> r == Success(()) && db.products == old(db.products) - {id}
  {
    if id !in db.products {
      return Failure(NotFound);
    }
    db.products := db.products - {id};
    r := Success(());
  }

  // ---------------------------------------------------------------- PUT /:id

  /** The loaded product after the partial update and the save's
      validation: the name only when non-empty, the price whenever
      supplied, and the recipe replaced wholesale whenever supplied. */
  function Updated(p: Product, name: string, price: Option<int>, recipe: Option<seq<RecipeInput>>)
    : (r: Result<Product, SchemaError>)
    requires ValidProduct(p)
    ensures price.Some? && price.value < 0 ==> r == Failure(BelowMin("price"))
    ensures r.Success? <==>
              (price.Some? ==> price.value >= 0) && (recipe.Some? ==> NewRecipe(recipe.value).Success?)
    ensures r.Success? ==> ValidProduct(r.value)
    ensures r.Success? ==> r.value.name == (if name != "" then name else p.name)
    ensures r.Success? ==> r.value.price == (if price.Some? then price.value else p.price)
    ensures r.Success? ==> r.value.recipe == (if recipe.Some? then NewRecipe(recipe.value).value else p.recipe)
  {
    var newPrice := if price.Some? then price.value else p.price;
    var newRecipe := if recipe.Some? then NewRecipe(recipe.value) else Success(p.recipe);
    if newPrice < 0 then Failure(BelowMin("price"))
    else if newRecipe.Failure? then Failure(newRecipe.error)
    else Success(Product(if name != "" then name else p.name, newPrice, newRecipe.value))
  }

  /** PUT: a missing id is not found and nothing changes; an update the save
      rejects (a negative price, a recipe line without an inventory id)
      changes nothing; otherwise only that product changes. */
  method Put(db: Store, id: Id, name: string, price: Option<int>, recipe: Option<seq<RecipeInput>>)
    returns (r: Result<Id, RouteError>)
    requires db.Valid()
    modifies db
    ensures db.Valid()
    ensures db.inventory == old(db.inventory) && db.sales == old(db.sales)
    ensures id !in old(db.products) ==> r == Failure(NotFound) && db.products == old(db.products)
    ensures id in old(db.products) ==>
              match Updated(old(db.products)[id], name, price, recipe)
              case Failure(e) => r == Failure(Invalid(e)) && db.products == old(db.products)
              case Success(p) => r == Success(id) && db.products == old(db.products)[id := p]
  {
    if id !in db.products {
      return Failure(NotFound);
    }
    var updated := Updated(db.products[id], name, price, recipe);
    if updated.Failure? {
      return Failure(Invalid(updated.error));
    }
    db.products := db.products[id := updated.value];
    r := Success(id);
  }
}
