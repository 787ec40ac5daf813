# Café point-of-sale: checkout, stock and recipes in Dafny

This project models the core of a small café point-of-sale system. The
system is an Express/MongoDB server with a React client. Products have
recipes, and each recipe line names an inventory item and the quantity one
unit of the product consumes.

The centre is checkout (`processBill`). For each cart line it does the
following:

- it looks the product up;
- it adds `price × quantity` to the total and records a sale item that
  snapshots the price;
- it walks the recipe and subtracts `qtyNeeded × quantity` from each
  referenced item, saving each item as it goes;
- it stops with an error as soon as an item falls below its floor
  (`minQty`);
- it collects a low-stock alert when the remaining quantity is at most
  twice the per-unit need.

The Sale is written only if every line goes through. The walk is not
all-or-nothing: each deduction is saved before its floor check, so a failed
checkout leaves every deduction made so far in the store, the failing one
included.

Around checkout sit the inventory and product handlers (restock-or-create
by case-insensitive name, delete guarded by recipe references, partial
updates, the shortage query) and the three schemas. The client side has
three parts: the POS page's cart, the inventory page's form and shortage
list, and the product form's recipe editor.

Layout, one module per file:

- `wrappers.dfy`: `Option` and `Result`.
- `models.dfy` (`Models`): the three schemas as datatypes, their validity
  predicates, and schema construction with its defaults and required paths.
- `database.dfy` (`Database`): the collections as a `Store` class whose
  fields the handlers reassign.
- `inventory_routes.dfy`, `product_routes.dfy`: the route handlers, as
  methods over the `Store`.
- `billing_controller.dfy` (`BillingController`): the checkout walk as
  functions (`Deduct`, `DeductRecipe`, `BillAll`, `Checkout`) and the
  handler `ProcessBill`. The handler is a method with the source's two
  nested loops, proved equal to `Checkout`.
- `billing_properties.dfy` (`BillingProperties`): cart-wide reference
  definitions (cart total, demand per item, items touched, the low-stock
  alerts raised along the list of deductions) and the theorems
  connecting them to the walk.
- `billing_scenarios.dfy`: worked checkouts on concrete data.
- `atomic_checkout.dfy` (`AtomicCheckout`): a validate-then-apply variant.
  It is not in the source. It is the corrected behaviour for the first two
  findings below.
- `billing_page.dfy`, `inventory_page.dfy`, `product_form.dfy`: the client
  logic.

Ids are abstract naturals, issued by one counter for all collections.
Prices and quantities are unbounded integers.

The design description of this system calls for an all-or-nothing checkout
that aggregates each item's demand over the whole cart before checking it.
Under that design a failed checkout leaves the store unchanged (flour would
stay at 25 kg in `BillingScenarios.FlourBelowFloor`). The code does not do
this, and the model follows the code. `BillingProperties.CheckoutSucceedsIff`
shows that, with no negative recipe quantity, the step-by-step floor check
accepts exactly the carts the aggregated check accepts. What differs is the
state left behind on failure, the figures a refusal reports (the code
reports the item's floor and its quantity before and after the one failing
deduction, not what the cart needs against what is available), and the
alerts (the code raises one per recipe line, measured against that line's
per-unit need, not one per item for the whole cart).

## Model

| member | source | states |
|---|---|---|
| Models.NewInventoryItem | server/models/Inventory.js:3-22 | an item is created exactly when name and unit are non-empty; a missing qty or minQty defaults to 0; no lower bound on either; a failure names the first missing path |
| Models.NewRecipe | server/models/Product.js:13-24 | a recipe casts exactly when every line has an inventory id; line for line, a missing qtyNeeded becomes 5; no bound on qtyNeeded |
| Models.NewProduct | server/models/Product.js:3-25 | a product is created exactly when the name is non-empty, the price is present and at least 0, and the recipe casts; a negative price fails on `price`; a missing recipe is empty |
| InventoryRoutes.SameNameIgnoringCaseIsCaseOnly | server/routes/inventoryRoutes.js:25 | two names match only if they have the same length and differ at most by letter case, position by position |
| InventoryRoutes.Post | server/routes/inventoryRoutes.js:20-49 | a case-insensitive namesake is restocked: qty added, minQty replaced only when truthy, name and unit kept, nothing created; a missing qty fails with nothing changed; without a namesake exactly one new item under a fresh id, or a schema failure with nothing changed |
| InventoryRoutes.Delete | server/routes/inventoryRoutes.js:56-75 | a missing id is not found; an item some recipe uses stays and the error names such a product; otherwise only that item goes; every recipe reference that resolved still resolves |
| InventoryRoutes.Restocked | server/routes/inventoryRoutes.js:29-31 | definition, no contract of its own: the posted qty is added and the floor replaced only when truthy; `InventoryRoutes.Post` states it in its contract |
| InventoryRoutes.Patched | server/routes/inventoryRoutes.js:86-89 | definition, no contract of its own: name and unit replaced when non-empty, qty and minQty when supplied; stated by `PatchedKeepsValidity` and `InventoryRoutes.Put` |
| InventoryRoutes.PatchedKeepsValidity | server/routes/inventoryRoutes.js:86-89 | a partial update keeps an item valid, and one that supplies nothing changes nothing |
| InventoryRoutes.Put | server/routes/inventoryRoutes.js:80-96 | a missing id is not found and nothing changes; otherwise only that item changes: name and unit when non-empty, qty and minQty when supplied |
| InventoryRoutes.GetShortages | server/routes/inventoryRoutes.js:101-109 | read-only; returns exactly the items with qty ≤ minQty, unchanged |
| ProductRoutes.PopulateRecipe | server/routes/productRoutes.js:10 | the listed recipe keeps length, order and qtyNeeded; each line carries the referenced item, or null exactly when it is gone |
| ProductRoutes.View | server/routes/productRoutes.js:10 | definition, no contract of its own: a listed product with its recipe populated; `PopulateRecipe` states the population |
| ProductRoutes.Post | server/routes/productRoutes.js:20-35 | a product that passes the schema is inserted under a fresh id and nothing else changes; otherwise nothing changes |
| ProductRoutes.Delete | server/routes/productRoutes.js:40-50 | a missing id is not found with no change; otherwise only that product goes |
| ProductRoutes.Updated | server/routes/productRoutes.js:61-65 | the name is set only when non-empty, the price whenever supplied, and the recipe replaced wholesale whenever supplied; a negative price fails on `price`; a success is a valid product |
| ProductRoutes.Put | server/routes/productRoutes.js:55-70 | a missing id is not found with no change; a rejected update changes nothing; otherwise only that product changes |
| Database.Store.FreshId | server/routes/productRoutes.js:24-28 | constructing a new document (here `new Product`, and `new Inventory` at server/routes/inventoryRoutes.js:39-44) gives it an id no stored document uses |
| BillingController.Deduct | server/controllers/billingController.js:49-76 | definition, no contract of its own: one recipe line looks its item up (an unknown item fails), subtracts `qtyNeeded × quantity` and saves, then fails if the item is below its floor (reporting name, floor, quantity before and after), else alerts when what is left is at most twice the per-unit need; stated by `DeductRecipeIsPrefix` and `DeductRecipeRaisesAlerts` |
| BillingController.DeductRecipe | server/controllers/billingController.js:47-78 | definition, no contract of its own: the recipe loop, stopping at the first error; `DeductInStore` is proved equal to it, and the `DeductRecipe…` lemmas state its properties |
| BillingController.BillLine | server/controllers/billingController.js:23-78 | definition, no contract of its own: one cart line fails on an unknown product, otherwise adds `price × quantity` to the total, snapshots the price into a sale item and deducts the recipe |
| BillingController.BillAll | server/controllers/billingController.js:21-79 | definition, no contract of its own: the cart loop from an empty total, stopping at the first error; the `BillAll…` lemmas state its properties |
| BillingController.Checkout | server/controllers/billingController.js:11-88 | definition, no contract of its own: an empty list is refused, otherwise the walk's error or, when the Sale validates, the receipt; the inventory is what the walk left; `ProcessBill` is proved equal to it and the `Checkout…` lemmas state its properties |
| BillingController.DeductRecipeKeepsItems | server/controllers/billingController.js:48-77 | the recipe walk changes only quantities: same items, names, units and floors |
| BillingController.BillAllKeepsItems | server/controllers/billingController.js:21-79 | the whole walk changes only quantities |
| BillingController.DeductRecipeStops | server/controllers/billingController.js:55-67 | after an error the rest of the recipe is never looked at |
| BillingController.BillAllStops | server/controllers/billingController.js:21-26 | after an error the rest of the cart is never looked at |
| BillingController.DeductInStore | server/controllers/billingController.js:47-78 | the inner loop over the store does exactly what the recipe walk specifies, saving each deduction before its floor check and stopping at the first error |
| BillingController.ProcessBill | server/controllers/billingController.js:7-88 | the handler's answer and inventory equal `Checkout` of the old store; products unchanged; exactly one Sale appended on success and none otherwise |
| BillingProperties.RecipeDemandNonNegative | server/controllers/billingController.js:49 | with non-negative qtyNeeded and quantity, a recipe's demand on any item is non-negative |
| BillingProperties.RecipeDemandOfUnused | server/controllers/billingController.js:49 | a recipe makes no demand on an item it does not name |
| BillingProperties.DeductRecipeApplied | server/controllers/billingController.js:48-62 | the recipe walk applies a prefix of the recipe's deductions, all of them when it gets through; total and sale items untouched |
| BillingProperties.DeductRecipeResolves | server/controllers/billingController.js:53-57 | a recipe walk that gets through named only existing items |
| BillingProperties.DeductRecipeFloors | server/controllers/billingController.js:60-67 | a recipe walk that gets through leaves every item it named at or above its floor |
| BillingProperties.DeductRecipePasses | server/controllers/billingController.js:60-67 | with non-negative needs, a recipe walk whose final quantities respect the floors and whose items exist gets through |
| BillingProperties.BillAllPrices | server/controllers/billingController.js:28-37 | a walk that gets through has total = cart total and one sale item per cart line, in order, with the product's current price |
| BillingProperties.BillAllResolves | server/controllers/billingController.js:23-26 | a walk that gets through found every product and every item its recipes name |
| BillingProperties.BillAllDeducts | server/controllers/billingController.js:49-60 | a walk that gets through leaves each item at its initial qty minus the cart's summed demand on it |
| BillingProperties.BillAllFloors | server/controllers/billingController.js:65-67 | a walk that gets through leaves every touched item at or above its floor |
| BillingProperties.BillAllPasses | server/controllers/billingController.js:49-67 | with non-negative needs, quantities ≥ 0, resolvable references and cart-wide floors respected, the walk gets through |
| BillingProperties.DeductRecipeIsPrefix | server/controllers/billingController.js:60-67 | the recipe walk's inventory is its deductions up to some point applied in order; all of them on success; on a floor error the last one applied is the deduction the error reports |
| BillingProperties.BillAllIsPrefix | server/controllers/billingController.js:21-79 | the whole walk's inventory is the walk's deductions up to some point applied in order; nothing is rolled back; on a floor error the last one applied is the reported one |
| BillingProperties.CheckoutRejectsEmpty | server/controllers/billingController.js:11-13 | an empty item list is refused before any lookup and nothing changes |
| BillingProperties.CheckoutPricesSale | server/controllers/billingController.js:28-37 | on success the Sale's total is the cart total, it carries the customer email, and it has one sale item per cart line with the price at that moment |
| BillingProperties.CheckoutDeductsDemand | server/controllers/billingController.js:49-67 | on success every item ends at its initial qty minus the cart-wide demand, and every touched item is at or above its floor |
| BillingProperties.UnknownProductRejected | server/controllers/billingController.js:23-26 | a cart line with an unknown product fails the checkout |
| BillingProperties.UnknownInventoryRejected | server/controllers/billingController.js:53-57 | a recipe line naming an unknown item fails the checkout |
| BillingProperties.CheckoutKeepsSavedDeductions | server/controllers/billingController.js:60-67 | after any checkout the store holds the first n deductions of the walk; all on success; on a floor error the n-th is the deduction on the reported item, which is left at the reported quantity (before less the amount taken) |
| BillingProperties.CheckoutSuccessConditions | server/controllers/billingController.js:11-88 | for any catalog, a successful checkout had a non-empty cart, existing products and items, quantities ≥ 1 and cart-wide floors respected |
| BillingProperties.CheckoutSucceedsIff | server/controllers/billingController.js:49-67 | with non-negative needs: success ⇔ non-empty cart, all references resolve, all quantities ≥ 1, and each touched item's initial qty minus its summed demand is ≥ its floor |
| BillingProperties.DeductRecipeAlerts | server/controllers/billingController.js:69-76 | each alert the recipe walk adds names an item whose remaining qty is at or above its floor |
| BillingProperties.BillAllAlerts | server/controllers/billingController.js:69-76 | every alert of the walk names an item that had not fallen below its floor |
| BillingProperties.CheckoutAlertsAboveFloor | server/controllers/billingController.js:64-76 | alerts come after the floor check, so every alert of a successful checkout names an item still at or above its floor |
| BillingProperties.DeductRecipeRaisesAlerts | server/controllers/billingController.js:69-76 | a recipe walk that gets through saves exactly the recipe's deductions and adds exactly the reference alerts for them |
| BillingProperties.BillAllRaisesAlerts | server/controllers/billingController.js:21-79 | a walk that gets through leaves the store at all its deductions applied and holds exactly the reference alerts |
| BillingProperties.CheckoutRaisesAlerts | server/controllers/billingController.js:69-76 | the alerts of a successful checkout are exactly the reference's: one per recipe line, in walk order, when the quantity left is at most twice that line's per-unit need, carrying name, quantity left and unit; never merged |
| BillingProperties.DeductRecipeBelowFloor | server/controllers/billingController.js:60-67 | a floor error of the recipe walk reports an item left in the store at the reported quantity, below the reported floor |
| BillingProperties.BillAllBelowFloor | server/controllers/billingController.js:60-67 | the same, for the whole walk |
| BillingProperties.CheckoutLeavesItemBelowFloor | server/controllers/billingController.js:60-67 | a checkout refused on the floor check leaves the reported item below its floor in the store |
| BillingScenarios.PlentyOfFlour | server/controllers/billingController.js:60-76 | 100 kg flour, one loaf needing 20 kg: 80 kg left, total 5, no alert |
| BillingScenarios.FlourRunningLow | server/controllers/billingController.js:69-76 | 45 kg: 25 kg left, sale succeeds with one alert |
| BillingScenarios.FlourBelowFloor | server/controllers/billingController.js:60-67 | 25 kg: the checkout fails and the store keeps 5 kg |
| BillingScenarios.RepeatedLines | server/controllers/billingController.js:21-79 | two lines of the same product deduct twice, are priced separately, and raise two alerts for the same item |
| BillingScenarios.NegativeQuantityRestocks | server/controllers/billingController.js:28-88 | a quantity of -1 adds 20 kg to the store before the Sale is refused |
| BillingScenarios.PerProductCheckIsNotCartWide | client/src/pages/BillingPage.jsx:25-41 | the page accepts one loaf and one roll from 45 kg; the server refuses that cart and keeps 5 kg |
| AtomicCheckout.Validate | server/controllers/billingController.js:49-67 | the whole-cart check passes exactly on non-empty, resolvable carts with quantities ≥ 1 and cart-wide floors respected; a stock error names the item, what is available above its floor, and what the cart needs |
| AtomicCheckout.FailureChangesNothing | server/controllers/billingController.js:60-67 | in the variant a refused checkout leaves the inventory unchanged |
| AtomicCheckout.AgreesOnSuccess | server/controllers/billingController.js:82-88 | whenever the source succeeds, the variant gives the same receipt and inventory |
| AtomicCheckout.SucceedsWithSource | server/controllers/billingController.js:49-88 | the variant succeeds exactly when the source does, agrees with it then, and otherwise leaves the store as it was |
| AtomicCheckout.NonPositiveQuantityRefusedUpFront | server/models/Sale.js:10-14 | in the variant a quantity below 1 is refused with the store unchanged |
| BillingPage.CheckInventory | client/src/pages/BillingPage.jsx:25-41 | true for an empty recipe; otherwise true exactly when every ingredient with a populated item has qtyNeeded × n ≤ qty − minQty; missing items are skipped |
| Models.FindById | client/src/pages/BillingPage.jsx:46 | the lookup by id both pages use: finds the first listed document with that id, or none exactly when no listed document has it |
| BillingPage.FindLine | client/src/pages/BillingPage.jsx:49 | finds a cart line for that product, or none exactly when no line has it |
| BillingPage.FindLineIsFirst | client/src/pages/BillingPage.jsx:49 | the line found comes before every other line of that product, as `find` returns the first match |
| BillingPage.SetQuantity | client/src/pages/BillingPage.jsx:55-59 | every line of that product gets the new quantity; all other fields and lines unchanged |
| BillingPage.AddToCart | client/src/pages/BillingPage.jsx:43-48 | no selection or an unknown product leaves the cart; otherwise the listed product with that id is added |
| BillingPage.AddProduct | client/src/pages/BillingPage.jsx:49-62 | a failed stock check for the line's next quantity leaves the cart; otherwise the product's existing line goes up by one, or one line of quantity 1 at the listed price is appended |
| BillingPage.UpdateQuantity | client/src/pages/BillingPage.jsx:70-99 | no product or no line leaves the cart; a raise is checked against stock; a result ≤ 0 leaves the cart; otherwise the line takes the new quantity |
| BillingPage.CheckoutRequest | client/src/pages/BillingPage.jsx:101-124 | nothing is sent for an empty cart or without any email; otherwise one `{productId, quantity}` per line, in order, with the page's or the prompted email |
| BillingPage.CartAfterCheckout | client/src/pages/BillingPage.jsx:126-133 | the cart is emptied on success and kept on failure |
| BillingPage.AddToCartKeepsWellFormed | client/src/pages/BillingPage.jsx:49-61 | adding keeps one line per product and every quantity ≥ 1 |
| BillingPage.UpdateQuantityKeepsWellFormed | client/src/pages/BillingPage.jsx:93-98 | a quantity change never takes a line below 1 and keeps one line per product |
| BillingPage.RemoveFromCart | client/src/pages/BillingPage.jsx:67 | definition, no contract of its own: the cart filtered on the product id; stated by `RemoveFromCartExact`, `RemoveSubsequence`, `RemoveAbsent` and `RemoveKeepsWellFormed` |
| BillingPage.Total | client/src/pages/BillingPage.jsx:139 | definition, no contract of its own: the sum of price × quantity over the cart; stated by `TotalAfterChange`, `AddToCartTotal` and `TotalMatchesServer` |
| BillingPage.RemoveFromCartExact | client/src/pages/BillingPage.jsx:67 | removing drops exactly the lines of that product and keeps all others |
| BillingPage.RemoveAbsent | client/src/pages/BillingPage.jsx:67 | removing a product not in the cart changes nothing |
| BillingPage.RemoveKeepsWellFormed | client/src/pages/BillingPage.jsx:67 | removing keeps the cart well formed |
| BillingPage.RemoveSubsequence | client/src/pages/BillingPage.jsx:67 | the kept lines are the cart's lines at increasing positions, and every line of another product is among them, so each is kept once and in order |
| BillingPage.AddThenRemove | client/src/pages/BillingPage.jsx:61 | adding a product not in the cart, then removing it, gives back the cart |
| BillingPage.TotalAfterChange | client/src/pages/BillingPage.jsx:139 | changing one line's quantity changes the total by price × the change |
| BillingPage.AddToCartTotal | client/src/pages/BillingPage.jsx:49-61 | a successful add raises the total by one unit's price: the price the product's line already carries, or the listed price for a new line |
| BillingPage.Payload | client/src/pages/BillingPage.jsx:122 | one `{productId, quantity}` per cart line, same length and order |
| BillingPage.TotalMatchesServer | client/src/pages/BillingPage.jsx:139 | with unchanged prices, the page's total equals the total the server computes for the request |
| BillingPage.RequestQuantitiesPositive | client/src/pages/BillingPage.jsx:121-124 | a request from a well-formed cart has every quantity ≥ 1, as the Sale schema requires |
| InventoryPage.Shortages | client/src/pages/InventoryPage.jsx:19 | definition, no contract of its own: the rows with qty ≤ minQty; stated by `ShortagesExact`, `ShortagesInOrder` and `ShortagesMatchServer` |
| InventoryPage.ShortagesExact | client/src/pages/InventoryPage.jsx:19 | a row is in the shortage list exactly when it is low, the same test as the Low Stock mark |
| InventoryPage.ShortagesInOrder | client/src/pages/InventoryPage.jsx:19 | the shortage list is the inventory's rows at increasing positions, every low row among them: each low row once, in inventory order |
| InventoryPage.ShortagesMatchServer | client/src/pages/InventoryPage.jsx:19 | on a list of the whole store, the page's shortages are exactly the items the server's shortage query returns |
| InventoryPage.Request | client/src/pages/InventoryPage.jsx:28-52 | nothing is sent without a name or a unit; otherwise the normalised payload goes to an update of the edited id, or to a create |
| InventoryPage.Submit | client/src/pages/InventoryPage.jsx:28-52 | definition, no contract of its own: `handleAdd` as written, `Request` with the floor sent as typed when truthy and 5 otherwise; stated by `BlankFieldsDefaulted`, `CreateAccepted` and `EditRaisesZeroFloor` |
| InventoryPage.SubmitKeepingFloor | client/src/pages/InventoryPage.jsx:39 | definition, no contract of its own: `handleAdd` with a loaded floor sent as loaded; stated by `EditRoundTrip` |
| InventoryPage.Edit | client/src/pages/InventoryPage.jsx:62-71 | definition, no contract of its own: the form loaded from the row, with its id as the edited id |
| InventoryPage.BlankFieldsDefaulted | client/src/pages/InventoryPage.jsx:35-40 | a blank qty is sent as 0, a blank minQty as 5, typed values as typed |
| InventoryPage.CancelEdit | client/src/pages/InventoryPage.jsx:73-76 | the form is emptied and nothing is being edited |
| InventoryPage.CreateAccepted | client/src/pages/InventoryPage.jsx:35-50 | every create request the page sends passes the item schema |
| InventoryPage.EditRaisesZeroFloor | client/src/pages/InventoryPage.jsx:39 | saving an edited item with floor 0 unchanged sends a floor of 5 |
| InventoryPage.EditRoundTrip | client/src/pages/InventoryPage.jsx:62-68 | with the loaded floor kept, saving an edited item unchanged leaves it the same on the server |
| ProductForm.AddIngredient | client/src/components/ProductForm.jsx:80-96 | with a selection, a quantity and a listed item, exactly one line is appended at the end; otherwise the list is unchanged |
| ProductForm.Spliced | client/src/components/ProductForm.jsx:98-102 | removes exactly the element at the normalised index, keeping the rest in order; an index past the end removes nothing |
| ProductForm.RemoveIngredient | client/src/components/ProductForm.jsx:98-102 | copying the list and splicing the copy in place gives `Spliced` |
| ProductForm.AddThenRemove | client/src/components/ProductForm.jsx:93 | appending a line and removing the last index gives back the list |
| ProductForm.DuplicateLinesAllowed | client/src/components/ProductForm.jsx:86-93 | adding an item already in the recipe gives two lines for it |
| ProductForm.EditRecipe | client/src/components/ProductForm.jsx:109-114 | each populated line becomes a form line, same order; a null reference makes the mapping fail, so neither the recipe nor edit mode is loaded (name and price were already set) |
| ProductForm.Project | client/src/components/ProductForm.jsx:141-144 | the payload recipe is `{inventoryId, qtyNeeded}` per form line, same length and order |
| ProductForm.Submit | client/src/components/ProductForm.jsx:130-154 | refused without name, price or a recipe line; otherwise the payload goes to an update of the edited id or to a create |
| ProductForm.NewIngredient | client/src/components/ProductForm.jsx:49-60 | needs a name and a unit; sends qty 0 and minQty 5 |
| ProductForm.RecipeRoundTrip | client/src/components/ProductForm.jsx:109-114 | loading a stored recipe whose items all exist and submitting it back gives the server the same recipe |
| ProductForm.CreateAcceptedIffPriceNonNegative | client/src/components/ProductForm.jsx:138-152 | a create from the form is accepted exactly when the price is not negative, and then stores the recipe line for line |
| ProductForm.NewIngredientStored | client/src/components/ProductForm.jsx:55-61 | a new material from the form is stored with qty 0 and floor 5 |

## Left out

- The invoice e-mail (`server/utils/mailer.js`, the e-mail items and the dispatch after the Sale is saved) is outbound I/O and fire-and-forget; it is not modelled.
- HTTP status codes, response bodies and message strings are reduced to the error datatypes; the handlers' 500 paths (database errors) are not modelled.
- `server/controllers/posController.js` is not mounted by the server and reads fields the schemas do not have; it is not part of this model.
- Concurrency: the source has no transactions or locking; lost updates between simultaneous checkouts cannot be expressed in this sequential model.
- The restock lookup builds an unescaped regular expression from the posted name; the model uses ASCII case-insensitive equality, which differs for names containing regular-expression metacharacters and for non-ASCII letters.
- JavaScript number coercion beyond the stated defaults (`Number(...)` on arbitrary strings, `NaN` other than a missing restock quantity), floating-point prices and `toFixed` display are not modelled; all numbers are integers.
- Mongoose wiring, ObjectId generation (one counter for all collections), timestamps and the `populate` join (modelled only as `ProductRoutes.PopulateRecipe` on values) are abstracted.
- The list handlers (`GET /api/inventory`, `GET /api/products`, the sales routes) and client data fetching are not modelled as operations; the client functions take the listed rows as parameters.
- Client rendering, `alert`/`prompt`/`confirm`, loading flags, scrolling and form visibility are left out; the prompt's answer is a parameter of `BillingPage.CheckoutRequest`.
- Resetting the selection after an add, the forms' reset and refetch after a save, the product form's `cancelEdit`, product and item deletion from the client, and the product form's fallback after a duplicate-name error are not modelled.
- `BillingPage.CartLine` keeps only id, name, price and quantity; the page also spreads the rest of the product into the line, unused afterwards.
- BillingProperties.CheckoutSucceedsIff: assumes no recipe line has a negative `qtyNeeded`, which the schema allows; with a negative need the step-by-step check can refuse a cart whose final quantities respect every floor.
- BillingPage.RemoveFromCart: its order and multiplicity are stated through positions (`BillingPage.RemoveSubsequence`), not as equality with a separate filter definition.

## Findings

| source | as written | input that shows it | evidently intended | confidence | as-written member | corrected member |
|---|---|---|---|---|---|---|
| server/controllers/billingController.js:60-67 | each deduction is saved before the floor check and nothing is undone on error | flour 25 kg, floor 10, one loaf needing 20 kg: the checkout fails and flour is left at 5 kg | a refused checkout leaves stock unchanged (the comment at server/controllers/posController.js:59-60 says this controller uses transactions) | medium, not executed | BillingScenarios.FlourBelowFloor | AtomicCheckout.SucceedsWithSource |
| server/controllers/billingController.js:28-62 | quantities are not checked before deducting; the Sale schema refuses quantity < 1 only after the walk | flour 25 kg, one line of bread with quantity -1: flour grows to 45 kg and the Sale is refused | a quantity below 1 is refused before any stock changes, as `min: 1` on the sale item suggests | medium, not executed | BillingScenarios.NegativeQuantityRestocks | AtomicCheckout.NonPositiveQuantityRefusedUpFront |
| client/src/pages/InventoryPage.jsx:39 | the floor field is tested for truthiness, and after the edit button loads a numeric 0 it is falsy and replaced by 5 | edit an item whose minQty is 0 and save it unchanged: the update sends minQty 5 | only a blank field takes the default; a loaded 0 is kept | medium, not executed | InventoryPage.EditRaisesZeroFloor | InventoryPage.EditRoundTrip |
