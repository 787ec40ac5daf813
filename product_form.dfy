/** The product form: the recipe list being edited (append a line, remove a
    line by index), loading a listed product into the form, the submit
    check and payload, and the quick creation of a new material. */
module ProductForm {
  import opened Wrappers
  import opened Models
  import opened InventoryRoutes
  import opened ProductRoutes

  /** A recipe line as the form holds it: the item's name and unit are kept
      for display. */
  datatype FormLine = FormLine(inventoryId: Id, qtyNeeded: int, name: string, unit: string)

  function RowId(row: StockRow): Id { row.id }

  /** The first listed inventory row with that id. */
  function FindItem(inventory: seq<StockRow>, id: Id): Option<StockRow> {
    FindById(inventory, id, RowId)
  }

  // ---------------------------------------------------------------- editing the recipe list

  /** `addIngredient`: with an item selected, a quantity entered and the
      item listed, exactly one line is appended at the end; otherwise the
      list stays. The list may already hold a line for the same item. */
  function AddIngredient(recipe: seq<FormLine>, inventory: seq<StockRow>, selected: Option<Id>, qty: Option<int>)
    : (r: seq<FormLine>)
    ensures selected.None? || qty.None? || FindItem(inventory, selected.value).None? ==> r == recipe
    ensures selected.Some? && qty.Some? && FindItem(inventory, selected.value).Some? ==>
              && |r| == |recipe| + 1 && r[..|recipe|] == recipe
              && r[|recipe|].inventoryId == selected.value && r[|recipe|].qtyNeeded == qty.value
              && r[|recipe|].name == FindItem(inventory, selected.value).value.item.name
              && r[|recipe|].unit == FindItem(inventory, selected.value).value.item.unit
  {
    if selected.None? || qty.None? then recipe
    else match FindItem(inventory, selected.value)
      case None => recipe
      case Some(row) => recipe + [FormLine(selected.value, qty.value, row.item.name, row.item.unit)]
  }

  /** Where `splice(index, 1)` starts: a negative index counts from the
      end; a start at or past the end removes nothing. */
  function SpliceStart(length: nat, index: int): nat {
    if index >= 0 then index else if length + index >= 0 then length + index else 0
  }

  /** The list without the element `splice(index, 1)` removes: the ones
      before it keep their place, the ones after it move up by one. */
  function Spliced(recipe: seq<FormLine>, index: int): (r: seq<FormLine>)
    ensures SpliceStart(|recipe|, index) >= |recipe| ==> r == recipe
    ensures SpliceStart(|recipe|, index) < |recipe| ==>
              && |r| == |recipe| - 1
              && (forall i :: 0 <= i < SpliceStart(|recipe|, index) ==> r[i] == recipe[i])
              && (forall i :: SpliceStart(|recipe|, index) <= i < |r| ==> r[i] == recipe[i + 1])
  {
    var start := SpliceStart(|recipe|, index);
    if start < |recipe| then recipe[..start] + recipe[start + 1..] else recipe
  }

  /** `removeIngredient`: copy the list, splice the copy in place by moving
      every later element down one slot, and keep all but the last slot. */
  method RemoveIngredient(recipe: seq<FormLine>, index: int) returns (r: seq<FormLine>)
    ensures r == Spliced(recipe, index)
  {
    var copy := new FormLine[|recipe|](i requires 0 <= i < |recipe| => recipe[i]);
    var start := SpliceStart(copy.Length, index);
    if start >= copy.Length {
      return copy[..];
    }
    var k := start;
    while k < copy.Length - 1
      invariant start <= k <= copy.Length - 1
      invariant forall i :: 0 <= i < start ==> copy[i] == recipe[i]
      invariant forall i :: start <= i < k ==> copy[i] == recipe[i + 1]
      invariant forall i :: k <= i < copy.Length ==> copy[i] == recipe[i]
    {
      copy[k] := copy[k + 1];
      k := k + 1;
    }
    r := copy[..copy.Length - 1];
  }

  /** Appending a line and then removing the last line gives back the list. */
  lemma AddThenRemove(recipe: seq<FormLine>, inventory: seq<StockRow>, id: Id, qty: int)
    requires FindItem(inventory, id).Some?
    ensures Spliced(AddIngredient(recipe, inventory, Some(id), Some(qty)), |recipe|) == recipe
  {
    var r := AddIngredient(recipe, inventory, Some(id), Some(qty));
    assert r[..|recipe|] == recipe;
  }

  /** Nothing stops a second line for an item already in the recipe. */
  lemma DuplicateLinesAllowed(recipe: seq<FormLine>, inventory: seq<StockRow>, j: nat, qty: int)
    requires j < |recipe| && FindItem(inventory, recipe[j].inventoryId).Some?
    ensures var r := AddIngredient(recipe, inventory, Some(recipe[j].inventoryId), Some(qty));
            j < |recipe| < |r| && r[j].inventoryId == r[|recipe|].inventoryId
  {
    var r := AddIngredient(recipe, inventory, Some(recipe[j].inventoryId), Some(qty));
    assert r[j] == r[..|recipe|][j];
  }

  // ---------------------------------------------------------------- loading and submitting

  /** `handleEditProduct`'s recipe mapping: each populated line becomes a
      form line. A line whose item is gone (a null reference) makes the
      mapping throw: name and price were already set by then, but neither
      the recipe nor edit mode is loaded. */
  function EditRecipe(populated: seq<PopulatedLine>): (r: Option<seq<FormLine>>)
    ensures r.Some? <==> forall j :: 0 <= j < |populated| ==> populated[j].ref.Some?
    ensures r.Some? ==> |r.value| == |populated|
    ensures r.Some? ==> forall j :: 0 <= j < |populated| ==>
              var row := populated[j].ref.value;
              r.value[j] == FormLine(row.id, populated[j].qtyNeeded, row.item.name, row.item.unit)
  {
    if |populated| == 0 then Some([])
    else
      var rest := EditRecipe(populated[1..]);
      match populated[0].ref
      case None => None
      case Some(row) =>
        if rest.None? then None
        else Some([FormLine(row.id, populated[0].qtyNeeded, row.item.name, row.item.unit)] + rest.value)
  }

  /** The recipe of the payload: `{inventoryId, qtyNeeded}` per form line,
      same length and order. */
  function Project(recipe: seq<FormLine>): (lines: seq<RecipeInput>)
    ensures |lines| == |recipe|
    ensures forall j :: 0 <= j < |recipe| ==>
              lines[j] == RecipeInput(Some(recipe[j].inventoryId), Some(recipe[j].qtyNeeded))
  {
    seq(|recipe|, j requires 0 <= j < |recipe| => RecipeInput(Some(recipe[j].inventoryId), Some(recipe[j].qtyNeeded)))
  }

  datatype ProductRequest = Create(body: ProductBody) | Update(id: Id, body: ProductBody)

  /** `handleSubmit`: refused without a name, a price or at least one
      recipe line; otherwise the payload goes to an update of the product
      being edited, or to a create. */
  function Submit(name: string, price: Option<int>, recipe: seq<FormLine>, editingId: Option<Id>)
    : (r: Option<ProductRequest>)
    ensures r.None? <==> name == "" || price.None? || |recipe| == 0
    ensures r.Some? ==> r.value.body == ProductBody(name, price, Some(Project(recipe)))
    ensures r.Some? ==> (r.value.Update? <==> editingId.Some?) && (r.value.Update? ==> r.value.id == editingId.value)
  {
    if name == "" || price.None? || |recipe| == 0 then None
    else
      var body := ProductBody(name, price, Some(Project(recipe)));
      if editingId.Some? then Some(Update(editingId.value, body)) else Some(Create(body))
  }

  /** The material the page creates on the fly needs a name and a unit, and
      starts empty with a floor of 5. */
  function NewIngredient(name: string, unit: string): (r: Option<ItemBody>)
    ensures r.None? <==> name == "" || unit == ""
    ensures r.Some? ==> r.value == ItemBody(name, Some(0), unit, Some(5))
  {
    if name == "" || unit == "" then None else Some(ItemBody(name, Some(0), unit, Some(5)))
  }

  // ---------------------------------------------------------------- properties

  /** Loading a stored product's recipe into the form and submitting it
      back gives the server the same recipe, as long as every item it names
      still exists. */
  lemma RecipeRoundTrip(recipe: seq<RecipeLine>, inventory: map<Id, InventoryItem>)
    requires forall j :: 0 <= j < |recipe| ==> recipe[j].inventoryId in inventory
    ensures var form := EditRecipe(PopulateRecipe(recipe, inventory));
            form.Some? && NewRecipe(Project(form.value)) == Success(recipe)
  {
    var form := EditRecipe(PopulateRecipe(recipe, inventory));
    var back := NewRecipe(Project(form.value));
    assert back.value == recipe;
  }

  /** A create request from the form is accepted exactly when its price is
      not negative, and then stores the recipe line for line. */
  lemma CreateAcceptedIffPriceNonNegative(name: string, price: Option<int>, recipe: seq<FormLine>)
    requires Submit(name, price, recipe, None).Some?
    ensures var b := Submit(name, price, recipe, None).value.body;
            var p := NewProduct(b.name, b.price, b.recipe);
            && (p.Success? <==> price.value >= 0)
            && (p.Success? ==> |p.value.recipe| == |recipe|)
            && (p.Success? ==> forall j :: 0 <= j < |recipe| ==>
                  p.value.recipe[j] == RecipeLine(recipe[j].inventoryId, recipe[j].qtyNeeded))
  {
  }

  /** A material created from the form, when no item of that name exists
      yet, is stored with quantity 0 and floor 5. */
  lemma NewIngredientStored(name: string, unit: string)
    requires NewIngredient(name, unit).Some?
    ensures var b := NewIngredient(name, unit).value;
            NewInventoryItem(b.name, b.qty, b.unit, b.minQty) == Success(InventoryItem(name, 0, unit, 5))
  {
  }
}
