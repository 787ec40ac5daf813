/** The inventory page: the shortage list and low-stock marking, and the
    add / edit form with its payload normalisation. */
module InventoryPage {
  import opened Wrappers
  import opened Models
  import opened InventoryRoutes

  // ---------------------------------------------------------------- shortages

  /** The low-stock mark of a table row; the shortage list uses the same
      test. */
  predicate IsLow(row: StockRow) {
    AtOrBelowMinimum(row.item)
  }

  /** The shortage list: the low rows, in inventory order. */
  function Shortages(rows: seq<StockRow>): seq<StockRow>
    decreases |rows|
  {
    if |rows| == 0 then []
    else
      var rest := Shortages(rows[..|rows| - 1]);
      if IsLow(rows[|rows| - 1]) then rest + [rows[|rows| - 1]] else rest
  }

  /** A row is in the shortage list exactly when it is marked low. */
  lemma {:induction false} ShortagesExact(rows: seq<StockRow>)
    ensures forall row :: row in Shortages(rows) <==> row in rows && IsLow(row)
    decreases |rows|
  {
    if |rows| > 0 {
      ShortagesExact(rows[..|rows| - 1]);
      assert rows == rows[..|rows| - 1] + [rows[|rows| - 1]];
    }
  }

  /** The shortage list keeps inventory order: its rows are the rows of
      the inventory at increasing positions, and every low row is among
      them, each exactly once. */
  lemma {:induction false} ShortagesInOrder(rows: seq<StockRow>) returns (pos: seq<nat>)
    ensures var r := Shortages(rows);
            && |pos| == |r|
            && (forall i :: 0 <= i < |r| ==> pos[i] < |rows| && r[i] == rows[pos[i]])
            && (forall i, j :: 0 <= i < j < |r| ==> pos[i] < pos[j])
            && (forall j :: 0 <= j < |rows| && IsLow(rows[j]) ==> j in pos)
    decreases |rows|
  {
    if |rows| == 0 {
      pos := [];
    } else {
      var last := |rows| - 1;
      var prev := ShortagesInOrder(rows[..last]);
      pos := prev;
      if IsLow(rows[last]) {
        pos := prev + [last];
      }
      forall j | 0 <= j < |rows| && IsLow(rows[j])
        ensures j in pos
      {
        if j < last {
          assert rows[..last][j] == rows[j];
          assert j in prev;
        }
      }
    }
  }

  /** The rows list the store: each row is a stored item under its id, and
      every stored item has a row. */
  predicate Lists(rows: seq<StockRow>, inventory: map<Id, InventoryItem>) {
    && (forall i :: 0 <= i < |rows| ==> rows[i].id in inventory && inventory[rows[i].id] == rows[i].item)
    && (forall k :: k in inventory ==> StockRow(k, inventory[k]) in rows)
  }

  /** Filtering on the page finds exactly the items the server's shortage
      query returns. */
  lemma ShortagesMatchServer(rows: seq<StockRow>, inventory: map<Id, InventoryItem>)
    requires Lists(rows, inventory)
    ensures forall k :: (exists i :: 0 <= i < |Shortages(rows)| && Shortages(rows)[i].id == k) <==>
                        k in inventory && AtOrBelowMinimum(inventory[k])
  {
    ShortagesExact(rows);
    var r := Shortages(rows);
    forall k | k in inventory && AtOrBelowMinimum(inventory[k])
      ensures exists i :: 0 <= i < |r| && r[i].id == k
    {
      assert StockRow(k, inventory[k]) in r;
    }
    forall k | (exists i :: 0 <= i < |r| && r[i].id == k)
      ensures k in inventory && AtOrBelowMinimum(inventory[k])
    {
      var i :| 0 <= i < |r| && r[i].id == k;
      assert r[i] in r;
      var j :| 0 <= j < |rows| && rows[j] == r[i];
    }
    assert r == Shortages(rows);
  }

  // ---------------------------------------------------------------- the form

  /** A number field of the form: left blank, typed by the user (a
      non-empty string, truthy even when it reads 0), or loaded from an
      item by the edit button (a number, falsy when 0). */
  datatype Field = Blank | Typed(typed: int) | Loaded(loaded: int)

  datatype ItemForm = ItemForm(name: string, qty: Field, unit: string, minQty: Field)

  const EmptyForm: ItemForm := ItemForm("", Blank, "", Blank)

  /** The form and the id of the item being edited, if any. */
  datatype PageState = PageState(form: ItemForm, editingId: Option<Id>)

  /** The floor the page proposes when none is given. */
  const ClientDefaultMinQty: int := 5

  /** `Number(qty) || 0`: blank becomes 0. */
  function QtyOut(f: Field): int {
    match f
    case Blank => 0
    case Typed(v) => v
    case Loaded(v) => v
  }

  /** `minQty ? Number(minQty) : 5`, as written: a blank field and a loaded
      0 both become 5. */
  function MinQtyOut(f: Field): int {
    match f
    case Blank => ClientDefaultMinQty
    case Typed(v) => v
    case Loaded(v) => if v != 0 then v else ClientDefaultMinQty
  }

  /** The floor as evidently intended: only a blank field takes the default. */
  function MinQtyOutKeepingLoaded(f: Field): int {
    match f
    case Blank => ClientDefaultMinQty
    case Typed(v) => v
    case Loaded(v) => v
  }

  datatype ItemRequest = Create(body: ItemBody) | Update(id: Id, body: ItemBody)

  /** `handleAdd` with a given normalised floor: without a name or a unit
      nothing is sent; otherwise the payload goes to an update of the item
      being edited, or to a create. */
  function Request(s: PageState, minQty: int): (r: Option<ItemRequest>)
    ensures r.None? <==> s.form.name == "" || s.form.unit == ""
    ensures r.Some? ==>
              && r.value.body == ItemBody(s.form.name, Some(QtyOut(s.form.qty)), s.form.unit, Some(minQty))
              && (r.value.Update? <==> s.editingId.Some?)
              && (r.value.Update? ==> r.value.id == s.editingId.value)
  {
    if s.form.name == "" || s.form.unit == "" then None
    else
      var body := ItemBody(s.form.name, Some(QtyOut(s.form.qty)), s.form.unit, Some(minQty));
      if s.editingId.Some? then Some(Update(s.editingId.value, body)) else Some(Create(body))
  }

  /** `handleAdd` as written. */
  function Submit(s: PageState): Option<ItemRequest> {
    Request(s, MinQtyOut(s.form.minQty))
  }

  /** `handleAdd` with the loaded floor kept. */
  function SubmitKeepingFloor(s: PageState): Option<ItemRequest> {
    Request(s, MinQtyOutKeepingLoaded(s.form.minQty))
  }

  /** `handleEdit`: the form is loaded from the row and the row's id is
      being edited. */
  function Edit(row: StockRow): PageState {
    PageState(ItemForm(row.item.name, Loaded(row.item.qty), row.item.unit, Loaded(row.item.minQty)), Some(row.id))
  }

  /** `cancelEdit`: the form is cleared and nothing is being edited. */
  function CancelEdit(s: PageState): (r: PageState)
    ensures r.form == EmptyForm && r.editingId.None?
  {
    PageState(EmptyForm, None)
  }

  // ---------------------------------------------------------------- properties

  /** The payload numbers: a blank quantity is sent as 0 and a blank floor
      as 5; typed values are sent as typed. */
  lemma BlankFieldsDefaulted(s: PageState)
    requires s.form.name != "" && s.form.unit != ""
    ensures var b := Submit(s).value.body;
            && (s.form.qty.Blank? ==> b.qty == Some(0))
            && (s.form.minQty.Blank? ==> b.minQty == Some(ClientDefaultMinQty))
            && (s.form.qty.Typed? ==> b.qty == Some(s.form.qty.typed))
            && (s.form.minQty.Typed? ==> b.minQty == Some(s.form.minQty.typed))
  {
  }

  /** A create request the page sends always passes the item schema. */
  lemma CreateAccepted(s: PageState)
    requires Submit(s).Some? && Submit(s).value.Create?
    ensures var b := Submit(s).value.body;
            NewInventoryItem(b.name, b.qty, b.unit, b.minQty).Success?
  {
  }

  /** As written, editing a valid item whose floor is 0 and saving it
      unchanged raises its floor to 5. */
  lemma EditRaisesZeroFloor(row: StockRow)
    requires ValidInventoryItem(row.item) && row.item.minQty == 0
    ensures var r := Submit(Edit(row));
            && r.Some? && r.value == Update(row.id, ItemBody(row.item.name, Some(row.item.qty), row.item.unit, Some(5)))
            && Patched(row.item, r.value.body.name, r.value.body.qty, r.value.body.unit, r.value.body.minQty)
               == row.item.(minQty := 5)
  {
  }

  /** With the loaded floor kept, saving an edited valid item unchanged
      gives back the same item on the server. */
  lemma EditRoundTrip(row: StockRow)
    requires ValidInventoryItem(row.item)
    ensures var r := SubmitKeepingFloor(Edit(row));
            && r.Some? && r.value.Update? && r.value.id == row.id
            && Patched(row.item, r.value.body.name, r.value.body.qty, r.value.body.unit, r.value.body.minQty) == row.item
  {
  }
}
