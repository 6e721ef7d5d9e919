# Predobro marketplace core in Dafny

Predobro is an ASP.NET Core marketplace. Stores list food items with a stock
count, and customers collect them in a cart and check out. This project models
the part of it that keeps stock and orders consistent:

- **Items**: one row per item, with its stock and owning store.
- **Orders**: one row per order. An unsubmitted order is the customer's cart.
- **OrderItems**: one row per order line, holding an item, a reserved quantity
  and a fulfilment status.

The model has one Dafny module per controller and one per shared layer:

- `Models` (models.dfy): rows, defaults, form validation and stock arithmetic.
- `Tables` (tables.dfy):
  - the three tables as sequences, and the `FoodContext` class that holds them;
  - lookups and quantity sums;
  - the invariants every action keeps.
- `Ordering` (ordering.dfy): newest-first sorting.
- `OrderController`, `AccountController`, `StoreController`, `BaseController`
  and `HomeController`: one module per controller.

How state changes are modelled:

- Each action that writes is a method on a `FoodContext`. Its postcondition says
  the new tables and the result are what a specification function (`…Spec`)
  gives for the old tables.
- The `…KeepsValid` lemmas show each action keeps the invariants, and the
  method carries that over to the context.
- The other lemmas state what the source promises about that specification
  function.

The invariants are:

- item, order and line ids are unique and below the next identity value;
- stock is never negative;
- every line has quantity at least 1 and belongs to an existing order;
- an order has at most one line per item;
- each customer has at most one cart.

The central property is conservation. For each item, its stock plus the
quantities its lines reserve is unchanged by AddToCart, RemoveFromCart,
UpdateCartItem and Checkout. Delete keeps it for every item that still exists.

Identity is explicit: the signed-in user is an `Actor` (id and roles) or a
`UserId` parameter. `DateTime.Now` is an opaque `Time` parameter. An uploaded
image is the generated file name, or `None` when no non-empty file was posted.
`bindingErrors` stands for every model-state error the framework adds beyond
the attributes on `Item`. That includes the errors for non-nullable strings and
for a missing `IFormFile ImageFile` (StoreController.cs:71 and :149-150).

## Model

| member | source | states |
|---|---|---|
| Models.NewCart | Predobro/Models/Order.cs:10-14 | A new order is a cart: unsubmitted, with no SubmittedAt, stamped with its creation time and customer. |
| Models.NewLine | Predobro/Controllers/OrderController.cs:105-110 | A new line reserves exactly one unit, with the status enum's zero value, for the given item and cart. |
| Models.ModelStateIsValid | Predobro/Models/Item.cs:11-17 | A valid form has no binding error, a quantity in [0, int.MaxValue] and a non-empty name. Each cause rejects the form on its own: a binding error, a quantity out of range, or a name of white space only. White space is what char.IsWhiteSpace accepts, the Unicode separators included. A form with none of these causes is accepted. |
| Models.Reserve | Predobro/Controllers/OrderController.cs:97 | Taking n ≤ stock units leaves a stock in [0, stock]. Giving them back restores it exactly. |
| Models.Restock | Predobro/Controllers/OrderController.cs:154 | Giving back n units adds exactly n. From non-negative inputs the stock never goes down. |
| Models.Restock32 | Predobro/Controllers/OrderController.cs:154 | The restitution as written, with 32-bit wrap-around: it equals the true sum whenever that sum fits in an int. |
| Models.Restock32Overflows | Predobro/Controllers/OrderController.cs:154 | A stock of int.MaxValue, which validation accepts, plus one returned unit wraps to a negative stock. The corrected Restock stays positive. |
| Models.OneMore | Predobro/Controllers/OrderController.cs:96 | Adding one unit to a line, as intended: one less gives back the old quantity, and a line of at least one unit never drops below one. |
| Models.OneMore32 | Predobro/Controllers/OrderController.cs:96 | The increment as written, with 32-bit wrap-around: it equals q + 1 whenever that fits in an int. |
| Models.OneMore32Overflows | Predobro/Controllers/OrderController.cs:96 | A line at int.MaxValue wraps to int.MinValue under the written increment, breaking "a line holds at least one unit". The corrected OneMore stays positive. |
| Ordering.SortNewestFirst | Predobro/Controllers/AccountController.cs:38 | OrderByDescending: the result is a permutation of the input, sorted newest first, with missing timestamps last. |
| Tables.ItemIndex | Predobro/Controllers/OrderController.cs:62 | Find by primary key: the index of a row with this id, or None when no row has it. |
| Tables.CartIndex | Predobro/Controllers/OrderController.cs:70-72 | The customer's cart: an unsubmitted order of this customer, or None when there is none. |
| Tables.LineForItem | Predobro/Controllers/OrderController.cs:89-90 | The cart's line for the item, or None when no line of that order names the item. |
| Tables.LinesOf | Predobro/Models/Order.cs:22 | The OrderItems navigation: exactly the lines whose order id is this order's. |
| Tables.LinesNotOf | Predobro/Controllers/OrderController.cs:270 | RemoveRange of an order's lines leaves exactly the lines of the other orders. |
| Tables.SumQtySplit | Predobro/Controllers/OrderController.cs:270 | Splitting the lines into one order's and the rest splits every quantity sum. |
| Tables.NoLinesLeft | Predobro/Controllers/OrderController.cs:270 | Once an order's lines are removed, the order has no line left. |
| Tables.OrdersValidAfterNewCart | Predobro/Controllers/OrderController.cs:75-86 | Creating a cart only for a customer who has none keeps at most one cart per customer. |
| Tables.LinesValidAfterOrderDelete | Predobro/Controllers/OrderController.cs:270-271 | Deleting an order together with all its lines leaves no line that points at a missing order. |
| Tables.Submitted | Predobro/Controllers/OrderController.cs:218-219 | Checkout's change: the order becomes submitted with SubmittedAt set, so it is no longer a cart. Id, customer and CreatedAt are kept. |
| Tables.FoodContext.constructor | Predobro/Data/FoodContext.cs:14-16 | An empty database satisfies every invariant. |
| BaseController.CartItemCount | Predobro/Controllers/BaseController.cs:15-26 | The count is computed exactly for an authenticated Customer with a resolvable id, and is None otherwise. |
| BaseController.CartItemCountNonNegative | Predobro/Controllers/BaseController.cs:23-26 | With positive line quantities the badge count is never negative. |
| BaseController.CartItemCountIsCartQuantity | Predobro/Controllers/BaseController.cs:23-26 | Since a customer has at most one cart, the badge count is the quantity on the lines of that cart, and 0 without one. |
| BaseController.CartItemCountIgnoresOtherLines | Predobro/Controllers/BaseController.cs:24-25 | Lines of submitted orders and of other customers never change the count. |
| HomeController.Index | Predobro/Controllers/HomeController.cs:22-24 | The browse list holds exactly the items with stock > 0, with their multiplicities, whichever store owns them. |
| HomeController.ListedIffInStock | Predobro/Controllers/HomeController.cs:22-24 | An item is listed exactly when it exists with stock > 0, which is exactly when AddToCart gets past its early returns. |
| AccountController.CustomerOrders | Predobro/Controllers/AccountController.cs:33-39 | Exactly the customer's submitted orders, with their multiplicities, newest SubmittedAt first. OrderController.Index (OrderController.cs:29-34) runs the same query. |
| AccountController.StoreOrders | Predobro/Controllers/AccountController.cs:44-52 | Exactly the submitted orders that have a line of this store that is not Completed, newest CreatedAt first. Each one has a line of this store. |
| AccountController.Index | Predobro/Controllers/AccountController.cs:30-59 | The Customer role is tested first and gets the customer view, then Store gets the store view, and any other role gets nothing. Only submitted orders ever show. |
| AccountController.FindStoreLine | Predobro/Controllers/AccountController.cs:76-81 | The line found has this id, an item of this store and a submitted order. None means no line qualifies. |
| AccountController.StatusDoesNotGateUpdate | Predobro/Controllers/AccountController.cs:87 | Setting any status leaves the line updatable, so any transition goes through, regressions included. |
| AccountController.UpdateOrderItemStatus | Predobro/Controllers/AccountController.cs:67-92 | Forbid exactly without the Store role. NotFound exactly when no line qualifies. Otherwise exactly that line's status becomes the requested one and nothing else changes. |
| OrderController.Details | Predobro/Controllers/OrderController.cs:39-51 | An order with this id of this customer, submitted or not. None when there is none. |
| OrderController.Cart | Predobro/Controllers/OrderController.cs:127-136 | The customer's unsubmitted order, or None when the customer has no cart. |
| OrderController.SubmittedOrderIndex | Predobro/Controllers/OrderController.cs:233-235 | The query OrderComplete and Delete share finds an order with this id, of this customer and submitted; None exactly when no order matches all three. |
| OrderController.OrderComplete | Predobro/Controllers/OrderController.cs:227-241 | Only a submitted order of this customer with this id is shown, so never a cart. |
| OrderController.FindCartLine | Predobro/Controllers/OrderController.cs:143-148 | The line found has this id, lies in an unsubmitted order of this customer and names an existing item. None means no line qualifies. |
| OrderController.WithCart | Predobro/Controllers/OrderController.cs:69-86 | Afterwards the customer's cart exists. An existing cart is reused and nothing changes. Without one, exactly one new empty cart is appended with the next order id. Items and lines are untouched. |
| OrderController.WithCartKeepsValid | Predobro/Controllers/OrderController.cs:75-86 | Creating the cart keeps the invariants, and the new cart holds nothing. |
| OrderController.ReserveOneKeepsValid | Predobro/Controllers/OrderController.cs:92-115 | Once the item has stock, reserving one unit always succeeds and keeps the invariants, so "Not enough stock available" (lines 98-100) is never reached. |
| OrderController.OneMoreOnLine | Predobro/Controllers/OrderController.cs:96 | Raising the cart's line by one adds one to the item's reserved total and one to the cart's quantity. |
| OrderController.OneOnNewLine | Predobro/Controllers/OrderController.cs:105-111 | A new line of one unit adds one to the item's reserved total and one to the cart's quantity. |
| OrderController.UnitsMoved | Predobro/Controllers/OrderController.cs:193-196 | Moving d units between an item's stock and its lines conserves every item's stock plus reservations. Every other item's stock stays. |
| OrderController.ReserveOneMovesOneUnit | Predobro/Controllers/OrderController.cs:92-115 | Reserving takes exactly one unit off the item's stock and puts it on its lines and in the cart. Every item's stock plus reservations is conserved, and every other item's stock stays. |
| OrderController.ReserveOneLineCase | Predobro/Controllers/OrderController.cs:89-115 | Reserving leaves the Orders table as it is, and the Items table changes only in the item's stock, which drops by one. If the cart has a line for the item, that line alone gains one unit; otherwise one new line of quantity 1 for this cart and item is appended. |
| OrderController.AddToCartOutcome | Predobro/Controllers/OrderController.cs:62-100 | NotFound exactly for an unknown item and the silent return exactly for stock ≤ 0. Otherwise Done, never NotEnoughStock. Only Done changes anything. |
| OrderController.AddToCartKeepsValid | Predobro/Controllers/OrderController.cs:55-124 | AddToCart keeps every invariant, including at most one cart per customer and stock ≥ 0. |
| OrderController.AddToCartMovesOneUnit | Predobro/Controllers/OrderController.cs:89-115 | Stock plus reservations is conserved for every item. On success the cart exists, and the item's stock drops by one while its reservations and the cart rise by one. The Items table is the old one with only that stock changed, so every other column and row stays. The cart's existing line for the item gains one unit, or else exactly one new line of quantity 1 is appended, and no other line changes. |
| OrderController.AddToCartLineCase | Predobro/Controllers/OrderController.cs:89-115 | On success the customer has a cart, and the Items table is the old one with only the item's stock lowered by one (line 97 or 114). The cart's existing line for the item gains one unit (line 96), or else exactly one new line of quantity 1 for this cart is appended (lines 105-111). The OrderItems table changes in no other way. |
| OrderController.AddToCartReusesCart | Predobro/Controllers/OrderController.cs:70-86 | AddToCart changes the Orders table only to create a missing cart. An existing cart is reused, every other order stays, and after a success the cart found is the old one or the appended one. |
| OrderController.AddToCart | Predobro/Controllers/OrderController.cs:55-124 | The imperative action produces exactly AddToCartSpec's tables and result, and keeps the invariants. AddToCartSpec is the pure model of these lines; the lemmas about it carry its properties. |
| OrderController.OwnLineIsInCart | Predobro/Controllers/OrderController.cs:146-148 | A line RemoveFromCart or UpdateCartItem finds lies in the customer's one cart. |
| OrderController.RemoveFromCartKeepsValid | Predobro/Controllers/OrderController.cs:140-161 | RemoveFromCart keeps every invariant. |
| OrderController.RemoveFromCartReturnsStock | Predobro/Controllers/OrderController.cs:143-159 | Unknown line: NotFound, nothing changes. Otherwise exactly that line is removed from the OrderItems table, and its whole quantity returns to the item's stock and leaves its reservations and the cart. The Items table is the old one with only that stock raised, and the Orders table stays. Conserved for every item. |
| OrderController.RemoveFromCartTwice | Predobro/Controllers/OrderController.cs:146-157 | A removed line cannot be found again, so a second RemoveFromCart of it is NotFound. |
| OrderController.RemoveFromCart | Predobro/Controllers/OrderController.cs:140-161 | The imperative action produces exactly RemoveFromCartSpec's tables and result, and keeps the invariants. RemoveFromCartSpec is the pure model of these lines; the lemmas about it carry its properties. |
| OrderController.UpdateCartItemKeepsValid | Predobro/Controllers/OrderController.cs:165-200 | UpdateCartItem keeps every invariant: stock ≥ 0 and line quantity ≥ 1. |
| OrderController.UpdateCartItemMovesDifference | Predobro/Controllers/OrderController.cs:167-196 | RemoveRequested exactly for quantity ≤ 0. NotFound exactly for an unknown line. NotEnoughStock exactly when the increase exceeds the stock. Otherwise the line takes the quantity and the difference moves between stock and cart. The Items table is the old one with only that stock changed, and every other line and the Orders table stay. Totals are conserved. |
| OrderController.UpdateCartItemUndo | Predobro/Controllers/OrderController.cs:182-196 | Setting the line back to its old quantity always succeeds and restores the tables exactly. |
| OrderController.UpdateCartItem | Predobro/Controllers/OrderController.cs:165-200 | The imperative action produces exactly UpdateCartItemSpec's tables and result, and keeps the invariants. UpdateCartItemSpec is the pure model of these lines; the lemmas about it carry its properties. |
| OrderController.CheckoutKeepsValid | Predobro/Controllers/OrderController.cs:204-224 | Checkout keeps every invariant. |
| OrderController.SumQtyZeroIffNoLines | Predobro/Controllers/OrderController.cs:211 | With positive line quantities, an order's quantities sum to zero exactly when it has no lines. |
| OrderController.CheckoutRefusesEmptyCart | Predobro/Controllers/OrderController.cs:211-215 | "Your cart is empty!" exactly when the cart holds nothing or there is no cart, and then nothing changes. |
| OrderController.CheckoutSubmitsCart | Predobro/Controllers/OrderController.cs:217-223 | The customer's cart becomes a submitted order stamped `now`, which OrderComplete then shows. No other order changes, and none is added or removed. The customer has no cart and a zero count afterwards. Stock and lines are untouched. |
| OrderController.Checkout | Predobro/Controllers/OrderController.cs:204-224 | The imperative action produces exactly CheckoutSpec's tables and result, and keeps the invariants. CheckoutSpec is the pure model of these lines; the lemmas about it carry its properties. |
| OrderController.RestockLine | Predobro/Controllers/OrderController.cs:262-266 | One pass of the loop: the line's quantity goes back to its item when the item exists. Only that item's Quantity column changes; every other column and every other row stays. |
| OrderController.RestockAll | Predobro/Controllers/OrderController.cs:260-267 | The whole loop changes only Quantity columns. Every row keeps its id, store, name, description, price and image. |
| OrderController.RestockAllStock | Predobro/Controllers/OrderController.cs:260-267 | After the loop, each existing item's stock has grown by exactly the quantities the order's lines reserved for it. Missing items are skipped. |
| OrderController.RestockAllGrows | Predobro/Controllers/OrderController.cs:260-267 | With positive line quantities, no stock goes down in the loop. |
| OrderController.RestockLines | Predobro/Controllers/OrderController.cs:260-267 | The imperative loop leaves the Items table equal to RestockAll of the order's lines, and nothing else changes. |
| OrderController.DeleteKeepsValid | Predobro/Controllers/OrderController.cs:246-277 | Delete keeps every invariant, including "no line points at a missing order". |
| OrderController.DeleteRestoresStock | Predobro/Controllers/OrderController.cs:249-273 | On NotFound nothing changes. On Done every reserved unit returns to its existing item, totals are conserved, and the order and its lines are gone. |
| OrderController.DeleteTakesOnlyOwnSubmittedOrder | Predobro/Controllers/OrderController.cs:249-254 | Done exactly when the id names a submitted order of this customer, so another customer's order or a cart is NotFound. Then that order and its lines are removed, and every other order and line stays. |
| OrderController.DeleteNeverRemovesCart | Predobro/Controllers/OrderController.cs:252-254 | A cart cannot be deleted this way: Delete on a cart's id is NotFound and changes nothing. |
| OrderController.DeleteKeepsCart | Predobro/Controllers/OrderController.cs:270-271 | Deleting a submitted order leaves every customer's cart and its quantity as they were. |
| OrderController.Delete | Predobro/Controllers/OrderController.cs:246-277 | The imperative action produces exactly DeleteSpec's tables and result, and keeps the invariants. DeleteSpec is the pure model of these lines; the lemmas about it carry its properties. |
| StoreController.Index | Predobro/Controllers/StoreController.cs:28-30 | Exactly the items whose StoreId is the caller, with their multiplicities. |
| StoreController.OwnedItemIndex | Predobro/Controllers/StoreController.cs:58 | The item with this id owned by the caller. None when there is none. |
| StoreController.OwnedItemIsOwnedLookup | Predobro/Controllers/StoreController.cs:247 | GET Edit and GET Delete find an item by id only if the caller owns it. Another store's item is NotFound. |
| StoreController.CreatedImageUrl | Predobro/Controllers/StoreController.cs:89-110 | Create sets an image URL exactly when a file is uploaded, and then it is "/uploads/items/" plus the file name. |
| StoreController.EditedImageUrl | Predobro/Controllers/StoreController.cs:177-227 | The URL is none, the stored one, or the new upload's. With DeleteImage an upload is never used. The image is cleared only on DeleteImage. |
| StoreController.EditImageCases | Predobro/Controllers/StoreController.cs:177-227 | The rule's cases: DeleteImage with a stored URL clears it. An upload without DeleteImage replaces it. Otherwise the stored URL stays. |
| StoreController.CreatedItem | Predobro/Controllers/StoreController.cs:71-115 | The new row takes the bound fields, the upload's URL, the next id and the caller as its store. |
| StoreController.CreateKeepsValid | Predobro/Controllers/StoreController.cs:81-119 | Create keeps every invariant. |
| StoreController.CreateAddsOwnedItem | Predobro/Controllers/StoreController.cs:81-142 | An invalid form adds nothing. A valid one appends exactly one item to the Items table: the bound fields, the next id and the caller as its store, whatever the form says. It lands at the end of the caller's list. No other item, order or line changes. |
| StoreController.CreateSetsStock | Predobro/Controllers/StoreController.cs:115 | The new item's stock is the posted quantity, and every other item's stock is unchanged. |
| StoreController.CreateIgnoresUnboundFields | Predobro/Controllers/StoreController.cs:71 | Only Name, Description, Price and Quantity are bound: a posted Id or ImageUrl makes no difference. |
| StoreController.Create | Predobro/Controllers/StoreController.cs:71-143 | The imperative action produces exactly CreateSpec's tables and result, and keeps the invariants. CreateSpec is the pure model of these lines; the lemmas about it carry its properties. |
| StoreController.EditKeepsValid | Predobro/Controllers/StoreController.cs:148-241 | Edit keeps every invariant. |
| StoreController.EditRewritesOwnItem | Predobro/Controllers/StoreController.cs:151-231 | NotFound for a mismatched id or an unowned item. Redisplay for an invalid form. Both change nothing. A save rewrites only that row: name, description, price and quantity from the form, the image by the image rule, and its id and StoreId kept. No other row changes, and every other item's total is conserved. |
| StoreController.Edit | Predobro/Controllers/StoreController.cs:148-241 | The imperative action produces exactly EditSpec's tables and result, and keeps the invariants. EditSpec is the pure model of these lines; the lemmas about it carry its properties. |
| StoreController.DeleteItemKeepsValid | Predobro/Controllers/StoreController.cs:260-273 | DeleteConfirmed keeps every invariant, although lines may still name the deleted item. |
| StoreController.DeleteItemRemovesOwnItem | Predobro/Controllers/StoreController.cs:263-271 | NotFound exactly when the caller owns no item with this id, and then nothing changes. Otherwise exactly that row is removed: the Items table keeps every other item and no item has that id. Every other item's stock is unchanged, and orders and lines stay, including lines of the deleted item. |
| StoreController.DeleteConfirmed | Predobro/Controllers/StoreController.cs:260-273 | The imperative action produces exactly DeleteItemSpec's tables and result, and keeps the invariants. DeleteItemSpec is the pure model of these lines; the lemmas about it carry its properties. |

## Left out

- Views, redirects, TempData messages, ViewBag, anti-forgery and console
  logging are not modelled. Each action returns a result value instead
  (`OrderResult`, `StatusResult`, `StoreResult`).
- Identity lookup is replaced by explicit parameters:
  - AddToCart's `Challenge()` for a missing user (OrderController.cs:58-59) is
    left out, because the model's caller is always a signed-in user;
  - BaseController's null service check is left out.
- The framework's model binding and validation are not modelled. Beyond the
  attributes on `Item`, model-state errors are the opaque `bindingErrors` flag.
  This flag also covers the implicit requirement the framework places on
  non-nullable strings. It covers the non-nullable `IFormFile ImageFile`
  parameter of Create and Edit too (StoreController.cs:71 and :149-150). The
  framework probably treats that parameter as required. A save without a file
  would then always set `bindingErrors` and redisplay. The model leaves that
  to the caller of Create and Edit, which passes `bindingErrors` in.
- The `try`/`catch` around SaveChanges in Create and Edit is not modelled:
  database failures are outside the model.
- Image files are not modelled: saving and deleting them, directories, and the
  Guid file name. The generated file name is a parameter.
- Timestamps are opaque integers, compared only for ordering. Price is carried
  as an uninterpreted integer.
- Concurrency is not modelled. Each action is one atomic step on the tables.
- The database's delete behaviour on `OrderItem.ItemId` is not modelled.
  DeleteConfirmed removes only the Items row, as the code does, so lines that
  name a deleted item stay. Such lines can no longer be found by
  RemoveFromCart, UpdateCartItem or UpdateOrderItemStatus.
- Delete: for an order holding a line whose item was deleted, the model
  removes that line with the order and gives no stock back for it, as the
  `orderItem.Item != null` test at OrderController.cs:263 expects. Loading
  with `ThenInclude(oi => oi.Item)` may instead leave such a line out of
  `order.OrderItems`. SaveChanges would then fail on the Restrict rule at
  FoodContext.cs:27-32. The model does not capture that failure.
- The class-level role checks are not modelled. These are
  `[Authorize(Roles = "Customer")]` on OrderController (OrderController.cs:13)
  and `[Authorize(Roles = "Store")]` on StoreController (StoreController.cs:12).
  The framework refuses every action of these controllers to a caller without
  the role, before the action runs. The model's actions assume a caller who
  holds the role and take only their id.
- UpdateCartItem with a quantity ≤ 0 redirects to RemoveFromCart, which accepts
  only POST. The model returns `RemoveRequested`, changes nothing, and does not
  follow the redirect.
- Status values other than `Completed` do not appear in the code, and the
  enum's declaration is not part of this model. The model assumes the enum has
  `Processing`, `ReadyForPickup` and `Completed`, and that a new line takes
  `Processing`, the zero value.
- Stock arithmetic in the cart actions and in Delete is unbounded (see Findings).
  The 32-bit wrap of the code as written is modelled only in `Models.Restock32`.
- AddToCart: the line's `Quantity += 1` at OrderController.cs:96 wraps at
  int.MaxValue as written. The model uses the corrected `Models.OneMore` (see
  Findings), and the wrap is modelled only in `Models.OneMore32`.
- CartItemCount: the badge's `Sum` at BaseController.cs:26 adds 32-bit ints.
  On overflow it throws, and every request of that customer fails. The model
  returns the unbounded sum. Overflow needs cart lines near int.MaxValue, the
  same state as the second finding.
- Program.cs, DBInitializer.cs, migrations, User.cs, the email sender and
  AdminController are not part of this model.

## Findings

| source | as written | input that shows it | evidently intended | confidence | as-written member | corrected member |
|---|---|---|---|---|---|---|
| Predobro/Controllers/OrderController.cs:154 | `orderItem.Item.Quantity += orderItem.Quantity` adds to a 32-bit int with no overflow check (the same holds at :193 and :265). | A customer reserves 1 unit. The store then edits the item's stock to int.MaxValue, which the Range check allows. RemoveFromCart gives the unit back and the stock wraps to int.MinValue, which is negative. | Giving back n units adds n, so the stock stays ≥ 0. | medium, not executed | Models.Restock32Overflows | Models.Restock |
| Predobro/Controllers/OrderController.cs:96 | `existingCartItem.Quantity += 1` adds to a 32-bit int with no overflow check. | The store sets item X's stock to int.MaxValue. A customer adds X, then updates the line to int.MaxValue, which the stock covers and which leaves stock 0. The store sets the stock to 1. AddToCart(X) then wraps the line to int.MinValue, and a later RemoveFromCart drives the stock negative. | A line gains one unit and keeps at least one. | medium, not executed | Models.OneMore32Overflows | Models.OneMore |
