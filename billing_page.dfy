/** The point-of-sale page: a cart of product lines built from the listed
    products, a stock pre-check per product, quantity changes, the total
    shown to the cashier, and the request sent at checkout. Every
    transition builds a new cart from the old one. */
module BillingPage {
  import opened Wrappers
  import opened Models
  import opened ProductRoutes
  import opened BillingProperties

  /** A cart line: the product's name and price as listed when it was added,
      and how many units are being sold. */
  datatype CartLine = CartLine(productId: Id, name: string, price: int, quantity: int)

  // ---------------------------------------------------------------- stock pre-check

  /** An ingredient with no populated item is skipped; otherwise `n` units
      must not need more than the item holds above its floor. */
  predicate Fits(line: PopulatedLine, n: int) {
    line.ref.None? || line.qtyNeeded * n <= line.ref.value.item.qty - line.ref.value.item.minQty
  }

  /** `checkInventory`: `n` units of a product fit if every ingredient fits;
      an empty recipe always fits. */
  function CheckInventory(recipe: seq<PopulatedLine>, n: int): (ok: bool)
    ensures |recipe| == 0 ==> ok
    ensures ok <==> forall j :: 0 <= j < |recipe| ==> Fits(recipe[j], n)
  {
    if |recipe| == 0 then true else Fits(recipe[0], n) && CheckInventory(recipe[1..], n)
  }

  // ---------------------------------------------------------------- lookups

  function ViewId(v: ProductView): Id { v.id }

  /** A listed product with that id, as `FindById` finds it. */
  function FindProduct(products: seq<ProductView>, id: Id): (r: Option<ProductView>)
    ensures r.Some? ==> r.value in products && r.value.id == id
    ensures r.None? <==> forall i :: 0 <= i < |products| ==> products[i].id != id
  {
    var r := FindById(products, id, ViewId);
    assert r.Some? ==> ViewId(r.value) == id;
    assert r.None? ==> forall i :: 0 <= i < |products| ==> ViewId(products[i]) != id;
    r
  }

  /** The first cart line for that product. */
  function FindLine(cart: seq<CartLine>, id: Id): (r: Option<CartLine>)
    ensures r.Some? ==> r.value.productId == id && exists i :: 0 <= i < |cart| && cart[i] == r.value
    ensures r.None? <==> forall i :: 0 <= i < |cart| ==> cart[i].productId != id
  {
    if |cart| == 0 then None
    else if cart[0].productId == id then Some(cart[0])
    else
      var r := FindLine(cart[1..], id);
      if r.Some? then assert cart[1..][0] == cart[1]; r else r
  }

  /** The line `FindLine` finds comes before every other line of that
      product. */
  lemma {:induction false} FindLineIsFirst(cart: seq<CartLine>, id: Id) returns (i: nat)
    requires FindLine(cart, id).Some?
    ensures i < |cart| && cart[i] == FindLine(cart, id).value
    ensures forall j :: 0 <= j < i ==> cart[j].productId != id
    decreases |cart|
  {
    if cart[0].productId == id {
      i := 0;
    } else {
      var k := FindLineIsFirst(cart[1..], id);
      i := k + 1;
      forall j | 0 <= j < i ensures cart[j].productId != id {
        if j > 0 { assert cart[j] == cart[1..][j - 1]; }
      }
    }
  }

  // ---------------------------------------------------------------- cart invariants

  /** At most one line per product. */
  predicate OneLinePerProduct(cart: seq<CartLine>) {
    forall i, j :: 0 <= i < j < |cart| ==> cart[i].productId != cart[j].productId
  }

  predicate QuantitiesPositive(cart: seq<CartLine>) {
    forall i :: 0 <= i < |cart| ==> cart[i].quantity >= 1
  }

  predicate WellFormed(cart: seq<CartLine>) {
    OneLinePerProduct(cart) && QuantitiesPositive(cart)
  }

  /** Every line for product `id` gets quantity `n`; the others stay. */
  function SetQuantity(cart: seq<CartLine>, id: Id, n: int): (r: seq<CartLine>)
    ensures |r| == |cart|
    ensures forall i :: 0 <= i < |cart| ==>
              r[i].productId == cart[i].productId && r[i].name == cart[i].name && r[i].price == cart[i].price
    ensures forall i :: 0 <= i < |cart| ==> r[i].quantity == (if cart[i].productId == id then n else cart[i].quantity)
  {
    seq(|cart|, i requires 0 <= i < |cart| => if cart[i].productId == id then cart[i].(quantity := n) else cart[i])
  }

  // ---------------------------------------------------------------- transitions

  /** The found product's part of `addToCart`: if the line's next
      quantity fails the stock check the cart stays as it is; otherwise the
      product's line goes up by one, or a new line of one unit is appended
      at the listed price. */
  function AddProduct(cart: seq<CartLine>, product: ProductView): (r: seq<CartLine>)
    ensures var line := FindLine(cart, product.id);
            var n := if line.Some? then line.value.quantity + 1 else 1;
            && (!CheckInventory(product.recipe, n) ==> r == cart)
            && (CheckInventory(product.recipe, n) && line.None? ==>
                  r == cart + [CartLine(product.id, product.name, product.price, 1)])
            && (CheckInventory(product.recipe, n) && line.Some? ==> r == SetQuantity(cart, product.id, n))
  {
    var line := FindLine(cart, product.id);
    var n := if line.Some? then line.value.quantity + 1 else 1;
    if !CheckInventory(product.recipe, n) then cart
    else if line.Some? then SetQuantity(cart, product.id, n)
    else cart + [CartLine(product.id, product.name, product.price, 1)]
  }

  /** `addToCart`: with no selection or an unknown product the cart stays
      as it is; otherwise the listed product is added. */
  function AddToCart(cart: seq<CartLine>, products: seq<ProductView>, selected: Option<Id>): (r: seq<CartLine>)
    ensures selected.None? ==> r == cart
    ensures selected.Some? && FindProduct(products, selected.value).None? ==> r == cart
    ensures selected.Some? && FindProduct(products, selected.value).Some? ==>
              r == AddProduct(cart, FindProduct(products, selected.value).value)
  {
    if selected.None? then cart
    else match FindProduct(products, selected.value)
      case None => cart
      case Some(product) => AddProduct(cart, product)
  }

  /** `removeFromCart`: the cart without the lines of that product, the
      rest in their order. */
  function RemoveFromCart(cart: seq<CartLine>, id: Id): seq<CartLine>
    decreases |cart|
  {
    if |cart| == 0 then []
    else
      var rest := RemoveFromCart(cart[..|cart| - 1], id);
      if cart[|cart| - 1].productId == id then rest else rest + [cart[|cart| - 1]]
  }

  /** `updateQuantity`: without a listed product or a cart line for it
      nothing changes; a raise is refused when the stock check fails; a
      change that would reach zero or less leaves the line as it is. */
  function UpdateQuantity(cart: seq<CartLine>, products: seq<ProductView>, id: Id, delta: int): (r: seq<CartLine>)
    ensures FindProduct(products, id).None? || FindLine(cart, id).None? ==> r == cart
    ensures FindProduct(products, id).Some? && FindLine(cart, id).Some? ==>
              var n := FindLine(cart, id).value.quantity + delta;
              && (delta > 0 && !CheckInventory(FindProduct(products, id).value.recipe, n) ==> r == cart)
              && (n <= 0 ==> r == cart)
              && (n > 0 && (delta > 0 ==> CheckInventory(FindProduct(products, id).value.recipe, n)) ==>
                    r == SetQuantity(cart, id, n))
  {
    var product := FindProduct(products, id);
    var line := FindLine(cart, id);
    if product.None? || line.None? then cart
    else
      var n := line.value.quantity + delta;
      if delta > 0 && !CheckInventory(product.value.recipe, n) then cart
      else if n > 0 then SetQuantity(cart, id, n)
      else cart
  }

  /** `totalAmount`: the sum of `price * quantity` over the cart. */
  function Total(cart: seq<CartLine>): int
    decreases |cart|
  {
    if |cart| == 0 then 0
    else Total(cart[..|cart| - 1]) + cart[|cart| - 1].price * cart[|cart| - 1].quantity
  }

  // ---------------------------------------------------------------- checkout

  /** The checkout request body. */
  datatype SaleRequest = SaleRequest(items: seq<BillItem>, customerEmail: string)

  /** `handleCheckout`: an empty cart sends nothing; without an email on
      the page the one typed at the prompt is used, and without either
      nothing is sent. Otherwise one `{productId, quantity}` per line, in
      cart order. */
  function CheckoutRequest(cart: seq<CartLine>, email: string, prompted: string): (r: Option<SaleRequest>)
    ensures r.None? <==> |cart| == 0 || (email == "" && prompted == "")
    ensures r.Some? ==>
              && r.value.customerEmail == (if email != "" then email else prompted)
              && |r.value.items| == |cart|
              && forall i :: 0 <= i < |cart| ==> r.value.items[i] == BillItem(cart[i].productId, cart[i].quantity)
  {
    if |cart| == 0 then None
    else if email == "" && prompted == "" then None
    else
      var items := seq(|cart|, i requires 0 <= i < |cart| => BillItem(cart[i].productId, cart[i].quantity));
      Some(SaleRequest(items, if email != "" then email else prompted))
  }

  /** The cart once the server has answered: emptied only on success. */
  function CartAfterCheckout(cart: seq<CartLine>, succeeded: bool): (r: seq<CartLine>)
    ensures succeeded ==> r == []
    ensures !succeeded ==> r == cart
  {
    if succeeded then [] else cart
  }

  // ---------------------------------------------------------------- properties

  lemma SetQuantityKeepsOneLine(cart: seq<CartLine>, id: Id, n: int)
    requires OneLinePerProduct(cart)
    ensures OneLinePerProduct(SetQuantity(cart, id, n))
  {
  }

  /** With one line per product, setting a product's quantity changes that
      one line only. */
  lemma SetQuantityAt(cart: seq<CartLine>, i: nat, n: int)
    requires OneLinePerProduct(cart) && i < |cart|
    ensures SetQuantity(cart, cart[i].productId, n) == cart[i := cart[i].(quantity := n)]
  {
    var r := SetQuantity(cart, cart[i].productId, n);
    forall j | 0 <= j < |cart|
      ensures r[j] == cart[i := cart[i].(quantity := n)][j]
    {
      if j != i {
        assert cart[j].productId != cart[i].productId by {
          if j < i { assert cart[j].productId != cart[i].productId; }
        }
      }
    }
  }

  /** Adding keeps one line per product and every quantity at least 1. */
  lemma AddToCartKeepsWellFormed(cart: seq<CartLine>, products: seq<ProductView>, selected: Option<Id>)
    requires WellFormed(cart)
    ensures WellFormed(AddToCart(cart, products, selected))
  {
    if selected.Some? && FindProduct(products, selected.value).Some? {
      var product := FindProduct(products, selected.value).value;
      var line := FindLine(cart, product.id);
      if line.Some? {
        SetQuantityKeepsOneLine(cart, product.id, line.value.quantity + 1);
      }
    }
  }

  /** No change of quantity ever takes a line below 1. */
  lemma UpdateQuantityKeepsWellFormed(cart: seq<CartLine>, products: seq<ProductView>, id: Id, delta: int)
    requires WellFormed(cart)
    ensures WellFormed(UpdateQuantity(cart, products, id, delta))
  {
    var line := FindLine(cart, id);
    if FindProduct(products, id).Some? && line.Some? {
      SetQuantityKeepsOneLine(cart, id, line.value.quantity + delta);
    }
  }

  /** Removing drops exactly the lines of that product and keeps every
      other line. */
  lemma {:induction false} RemoveFromCartExact(cart: seq<CartLine>, id: Id)
    ensures forall x :: x in RemoveFromCart(cart, id) <==> x in cart && x.productId != id
    ensures |RemoveFromCart(cart, id)| <= |cart|
    decreases |cart|
  {
    if |cart| > 0 {
      RemoveFromCartExact(cart[..|cart| - 1], id);
      assert cart == cart[..|cart| - 1] + [cart[|cart| - 1]];
    }
  }

  /** Removing a product the cart does not hold changes nothing. */
  lemma {:induction false} RemoveAbsent(cart: seq<CartLine>, id: Id)
    requires forall i :: 0 <= i < |cart| ==> cart[i].productId != id
    ensures RemoveFromCart(cart, id) == cart
    decreases |cart|
  {
    if |cart| > 0 {
      RemoveAbsent(cart[..|cart| - 1], id);
      assert cart == cart[..|cart| - 1] + [cart[|cart| - 1]];
    }
  }

  lemma RemoveKeepsWellFormed(cart: seq<CartLine>, id: Id)
    requires WellFormed(cart)
    ensures WellFormed(RemoveFromCart(cart, id))
  {
    var pos := RemoveSubsequence(cart, id);
  }

  /** The kept lines, in order, are the lines of the cart at increasing
      positions, and every line of another product is among them: removing
      keeps each other line exactly once, in its order. */
  lemma {:induction false} RemoveSubsequence(cart: seq<CartLine>, id: Id)
    returns (pos: seq<nat>)
    ensures var r := RemoveFromCart(cart, id);
            && |pos| == |r|
            && (forall i :: 0 <= i < |r| ==> pos[i] < |cart| && r[i] == cart[pos[i]])
            && (forall i, j :: 0 <= i < j < |r| ==> pos[i] < pos[j])
            && (forall j :: 0 <= j < |cart| && cart[j].productId != id ==> j in pos)
    decreases |cart|
  {
    if |cart| == 0 {
      pos := [];
    } else {
      var prev := RemoveSubsequence(cart[..|cart| - 1], id);
      pos := RemoveSubsequenceStep(cart, id, prev);
    }
  }

  /** The step of `RemoveSubsequence`: the positions kept from all lines
      but the last, and the last one when it is kept. */
  lemma RemoveSubsequenceStep(cart: seq<CartLine>, id: Id, prev: seq<nat>) returns (pos: seq<nat>)
    requires |cart| > 0
    requires var pre := cart[..|cart| - 1];
             var r := RemoveFromCart(pre, id);
             && |prev| == |r|
             && (forall i :: 0 <= i < |r| ==> prev[i] < |pre| && r[i] == pre[prev[i]])
             && (forall i, j :: 0 <= i < j < |r| ==> prev[i] < prev[j])
             && (forall j :: 0 <= j < |pre| && pre[j].productId != id ==> j in prev)
    ensures var r := RemoveFromCart(cart, id);
            && |pos| == |r|
            && (forall i :: 0 <= i < |r| ==> pos[i] < |cart| && r[i] == cart[pos[i]])
            && (forall i, j :: 0 <= i < j < |r| ==> pos[i] < pos[j])
            && (forall j :: 0 <= j < |cart| && cart[j].productId != id ==> j in pos)
  {
    var last := |cart| - 1;
    forall j | 0 <= j < last && cart[j].productId != id
      ensures j in prev
    {
      assert cart[..last][j] == cart[j];
    }
    if cart[last].productId == id {
      pos := prev;
    } else {
      pos := prev + [last];
      assert forall j :: 0 <= j < last && cart[j].productId != id ==> j in pos;
    }
  }

  /** Adding a product that is not in the cart and then removing it gives
      back the cart. */
  lemma AddThenRemove(cart: seq<CartLine>, products: seq<ProductView>, id: Id)
    requires forall i :: 0 <= i < |cart| ==> cart[i].productId != id
    ensures RemoveFromCart(AddToCart(cart, products, Some(id)), id) == cart
  {
    var r := AddToCart(cart, products, Some(id));
    if r != cart {
      assert r[..|r| - 1] == cart;
    }
    RemoveAbsent(cart, id);
  }

  /** Changing one line's quantity changes the total by its price times the
      change. */
  lemma {:induction false} TotalAfterChange(cart: seq<CartLine>, i: nat, n: int)
    requires i < |cart|
    ensures Total(cart[i := cart[i].(quantity := n)]) == Total(cart) + cart[i].price * (n - cart[i].quantity)
    decreases |cart|
  {
    var last := |cart| - 1;
    var changed := cart[i := cart[i].(quantity := n)];
    assert changed[..last] == if i < last then cart[..last][i := cart[i].(quantity := n)] else cart[..last];
    if i < last {
      TotalAfterChange(cart[..last], i, n);
    }
  }

  /** Adding a product raises the total by one unit's price (the price its
      line already carries, or the listed price for a new line), or leaves
      the cart as it was. */
  lemma AddToCartTotal(cart: seq<CartLine>, products: seq<ProductView>, id: Id)
    requires WellFormed(cart)
    ensures var r := AddToCart(cart, products, Some(id));
            r == cart ||
            (FindProduct(products, id).Some? &&
             Total(r) == Total(cart) + (if FindLine(cart, id).Some? then FindLine(cart, id).value.price
                                        else FindProduct(products, id).value.price))
  {
    var found := FindProduct(products, id);
    if found.Some? {
      AddProductTotal(cart, found.value);
    }
  }

  lemma AddProductTotal(cart: seq<CartLine>, product: ProductView)
    requires OneLinePerProduct(cart)
    ensures var r := AddProduct(cart, product);
            var line := FindLine(cart, product.id);
            r == cart || Total(r) == Total(cart) + (if line.Some? then line.value.price else product.price)
  {
    var line := FindLine(cart, product.id);
    var n := if line.Some? then line.value.quantity + 1 else 1;
    if CheckInventory(product.recipe, n) {
      if line.Some? {
        var i :| 0 <= i < |cart| && cart[i] == line.value;
        IncrementTotal(cart, i);
      } else {
        var r := AddProduct(cart, product);
        assert r[..|r| - 1] == cart;
      }
    }
  }

  lemma IncrementTotal(cart: seq<CartLine>, i: nat)
    requires OneLinePerProduct(cart) && i < |cart|
    ensures Total(SetQuantity(cart, cart[i].productId, cart[i].quantity + 1)) == Total(cart) + cart[i].price
  {
    SetQuantityAt(cart, i, cart[i].quantity + 1);
    TotalAfterChange(cart, i, cart[i].quantity + 1);
  }

  /** The lines of a cart as the request sends them. */
  function Payload(cart: seq<CartLine>): (items: seq<BillItem>)
    ensures |items| == |cart|
    ensures forall i :: 0 <= i < |cart| ==> items[i] == BillItem(cart[i].productId, cart[i].quantity)
  {
    seq(|cart|, i requires 0 <= i < |cart| => BillItem(cart[i].productId, cart[i].quantity))
  }

  /** Products in the cart still priced as when they were added. */
  predicate PricesCurrent(cart: seq<CartLine>, products: map<Id, Product>) {
    forall i :: 0 <= i < |cart| ==> cart[i].productId in products && products[cart[i].productId].price == cart[i].price
  }

  /** The total the page shows is the total the server charges for the
      request it sends, as long as no price changed since the lines were
      added. */
  lemma {:induction false} TotalMatchesServer(cart: seq<CartLine>, products: map<Id, Product>)
    requires PricesCurrent(cart, products)
    ensures CartTotal(products, Payload(cart)) == Total(cart)
    decreases |cart|
  {
    if |cart| > 0 {
      var last := |cart| - 1;
      assert Payload(cart)[..last] == Payload(cart[..last]);
      TotalMatchesServer(cart[..last], products);
    }
  }

  /** A request built from a well-formed cart never carries a quantity the
      Sale would refuse. */
  lemma RequestQuantitiesPositive(cart: seq<CartLine>, email: string, prompted: string)
    requires QuantitiesPositive(cart)
    requires CheckoutRequest(cart, email, prompted).Some?
    ensures PositiveQuantities(CheckoutRequest(cart, email, prompted).value.items)
  {
  }
}
