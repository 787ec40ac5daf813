/** The `/api/inventory` handlers: restock-or-create by case-insensitive
    name, delete guarded by recipe references, partial update by id, and
    the shortage query. */
module InventoryRoutes {
  import opened Wrappers
  import opened Models
  import opened Database

  datatype RouteError =
    | NotFound
    | InUse(productName: string)
    | Invalid(reason: SchemaError)
    | NotANumber(path: string)

  /** The JSON body of POST and PUT: absent numbers are `None`. */
  datatype ItemBody = ItemBody(name: string, qty: Option<int>, unit: string, minQty: Option<int>)

  // ---------------------------------------------------------------- names

  function LowerChar(c: char): char {
    if 'A' <= c <= 'Z' then (c as int + 32) as char else c
  }

  function Lower(s: string): (r: string)
    ensures |r| == |s|
    ensures forall i :: 0 <= i < |s| ==> r[i] == LowerChar(s[i])
  {
    seq(|s|, i requires 0 <= i < |s| => LowerChar(s[i]))
  }

  /** The anchored, case-insensitive match of the lookup `^name$` with flag `i`. */
  predicate SameNameIgnoringCase(a: string, b: string) {
    Lower(a) == Lower(b)
  }

  /** Case only: names of different lengths never match, and letters
      differing other than by case never match. */
  lemma {:induction false} SameNameIgnoringCaseIsCaseOnly(a: string, b: string)
    requires SameNameIgnoringCase(a, b)
    ensures |a| == |b|
    ensures forall i :: 0 <= i < |a| ==> a[i] == b[i] || LowerChar(a[i]) == LowerChar(b[i])
  {
    assert |Lower(a)| == |Lower(b)|;
    forall i | 0 <= i < |a|
      ensures a[i] == b[i] || LowerChar(a[i]) == LowerChar(b[i])
    {
      assert Lower(a)[i] == Lower(b)[i];
    }
  }

  // ---------------------------------------------------------------- POST /

  /** JavaScript truthiness of a posted number: present and not zero. */
  predicate Truthy(n: Option<int>) {
    n.Some? && n.value != 0
  }

  /** The restock of an existing item: the posted amount is added and the
      floor is replaced only by a truthy value. */
  function Restocked(item: InventoryItem, qty: int, minQty: Option<int>): InventoryItem {
    item.(qty := item.qty + qty, minQty := if Truthy(minQty) then minQty.value else item.minQty)
  }

  predicate HasNamesake(inventory: map<Id, InventoryItem>, name: string) {
    exists k :: k in inventory && SameNameIgnoringCase(inventory[k].name, name)
  }

  /** POST: an item whose name matches case-insensitively is restocked
      (name and unit untouched, `minQty` replaced only when truthy); a
      missing amount is NaN, which the save rejects. Otherwise exactly one
      new item is inserted under a fresh id. */
  method Post(db: Store, name: string, qty: Option<int>, unit: string, minQty: Option<int>)
    returns (r: Result<Id, RouteError>)
    requires db.Valid()
    modifies db
    ensures db.Valid()
    ensures db.products == old(db.products) && db.sales == old(db.sales)
    ensures HasNamesake(old(db.inventory), name) && qty.None? ==>
              r == Failure(NotANumber("qty")) && db.inventory == old(db.inventory)
    ensures HasNamesake(old(db.inventory), name) && qty.Some? ==>
              && r.Success? && r.value in old(db.inventory)
              && SameNameIgnoringCase(old(db.inventory)[r.value].name, name)
              && db.inventory == old(db.inventory)[r.value := Restocked(old(db.inventory)[r.value], qty.value, minQty)]
              && db.inventory[r.value].name == old(db.inventory)[r.value].name
              && db.inventory[r.value].unit == old(db.inventory)[r.value].unit
    ensures !HasNamesake(old(db.inventory), name) ==>
              match NewInventoryItem(name, qty, unit, minQty)
              case Failure(e) => r == Failure(Invalid(e)) && db.inventory == old(db.inventory)
              case Success(item) =>
                && r == Success(old(db.nextId)) && r.value !in old(db.inventory)
                && db.inventory == old(db.inventory)[r.value := item]
  {
    if k :| k in db.inventory && SameNameIgnoringCase(db.inventory[k].name, name) {
      if qty.None? {
        return Failure(NotANumber("qty"));
      }
      db.inventory := db.inventory[k := Restocked(db.inventory[k], qty.value, minQty)];
      return Success(k);
    }
    var created := NewInventoryItem(name, qty, unit, minQty);
    if created.Failure? {
      return Failure(Invalid(created.error));
    }
    var id := db.FreshId();
    db.inventory := db.inventory[id := created.value];
    r := Success(id);
  }

  // ---------------------------------------------------------------- DELETE /:id

  /** Some line of the product's recipe names the item. */
  predicate References(p: Product, id: Id) {
    exists j :: 0 <= j < |p.recipe| && p.recipe[j].inventoryId == id
  }

  predicate Referenced(products: map<Id, Product>, id: Id) {
    exists pid :: pid in products && References(products[pid], id)
  }

  /** DELETE: a missing id is not found; an item some recipe uses is kept
      and the error names such a product; otherwise only that item goes.
      Either way, a recipe reference that resolved before still resolves. */
  method Delete(db: Store, id: Id) returns (r: Result<(), RouteError>)
    requires db.Valid()
    modifies db
    ensures db.Valid()
    ensures db.products == old(db.products) && db.sales == old(db.sales)
    ensures id !in old(db.inventory) ==> r == Failure(NotFound) && db.inventory == old(db.inventory)
    ensures id in old(db.inventory) && Referenced(db.products, id) ==>
              && r.Failure? && r.error.InUse?
              && (exists pid :: pid in db.products && References(db.products[pid], id) &&
                               db.products[pid].name == r.error.productName)
              && db.inventory == old(db.inventory)
    ensures id in old(db.inventory) && !Referenced(db.products, id) ==>
              r == Success(()) && db.inventory == old(db.inventory) - {id}
    ensures forall pid, j ::
              (pid in db.products && 0 <= j < |db.products[pid].recipe| &&
               db.products[pid].recipe[j].inventoryId in old(db.inventory)) ==>
              db.products[pid].recipe[j].inventoryId in db.inventory
  {
    if id !in db.inventory {
      return Failure(NotFound);
    }
    if pid :| pid in db.products && References(db.products[pid], id) {
      return Failure(InUse(db.products[pid].name));
    }
    db.inventory := db.inventory - {id};
    r := Success(());
  }

  // ---------------------------------------------------------------- PUT /:id

  /** Partial update: name and unit only when non-empty, the two numbers
      whenever supplied. */
  function Patched(item: InventoryItem, name: string, qty: Option<int>, unit: string, minQty: Option<int>)
    : InventoryItem
  {
    InventoryItem(
      if name != "" then name else item.name,
      if qty.Some? then qty.value else item.qty,
      if unit != "" then unit else item.unit,
      if minQty.Some? then minQty.value else item.minQty)
  }

  /** A partial update never invalidates an item, and one that supplies
      nothing leaves it as it was. */
  lemma PatchedKeepsValidity(item: InventoryItem, name: string, qty: Option<int>, unit: string, minQty: Option<int>)
    requires ValidInventoryItem(item)
    ensures ValidInventoryItem(Patched(item, name, qty, unit, minQty))
    ensures Patched(item, "", None, "", None) == item
  {
  }

  /** PUT: a missing id is not found and nothing changes; otherwise only
      that item changes, and only in the supplied fields. */
  method Put(db: Store, id: Id, name: string, qty: Option<int>, unit: string, minQty: Option<int>)
    returns (r: Result<Id, RouteError>)
    requires db.Valid()
    modifies db
    ensures db.Valid()
    ensures db.products == old(db.products) && db.sales == old(db.sales)
    ensures id !in old(db.inventory) ==> r == Failure(NotFound) && db.inventory == old(db.inventory)
    ensures id in old(db.inventory) ==>
              r == Success(id) &&
              db.inventory == old(db.inventory)[id := Patched(old(db.inventory)[id], name, qty, unit, minQty)]
  {
    if id !in db.inventory {
      return Failure(NotFound);
    }
    PatchedKeepsValidity(db.inventory[id], name, qty, unit, minQty);
    db.inventory := db.inventory[id := Patched(db.inventory[id], name, qty, unit, minQty)];
    r := Success(id);
  }

  // ---------------------------------------------------------------- GET /shortages

  /** GET `/shortages`: a read-only query for exactly the items at or below
      their floor. */
  method GetShortages(db: Store) returns (r: map<Id, InventoryItem>)
    ensures forall k :: k in r <==> k in db.inventory && AtOrBelowMinimum(db.inventory[k])
    ensures forall k :: k in r ==> r[k] == db.inventory[k]
  {
    r := map k | k in db.inventory && AtOrBelowMinimum(db.inventory[k]) :: db.inventory[k];
  }
}
