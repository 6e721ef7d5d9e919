/** OrderController: a customer's cart and orders. Stock is reserved when an
    item goes into the cart and given back when a line is removed or
    lowered, or when a submitted order is deleted. */
module OrderController {
  import opened Models
  import opened Tables
  import opened BaseController

  datatype OrderResult =
    | NotFound
    | OutOfStock             // AddToCart on an item with no stock: back to Home
    | NotEnoughStock         // "Not enough stock available"
    | EmptyCart              // "Your cart is empty!"
    | RemoveRequested        // UpdateCartItem with quantity <= 0: redirect to RemoveFromCart
    | Done                   // the change is saved
    | CheckedOut(orderId: int)

  // ---------------------------------------------------------------------
  // Lookups
  // ---------------------------------------------------------------------

  /** Details: an order of this customer, submitted or not. */
  function Details(orders: seq<Order>, customer: UserId, id: int): (r: Option<Order>)
    ensures r.Some? ==> r.value in orders && r.value.id == id && r.value.customerId == customer
    ensures r.None? ==> forall o :: o in orders ==> !(o.id == id && o.customerId == customer)
  {
    match FirstIndex(orders, (o: Order) => o.id == id && o.customerId == customer)
    case Some(k) => Some(orders[k])
    case None => None
  }

  /** Cart: the customer's unsubmitted order, if there is one. */
  function Cart(orders: seq<Order>, customer: UserId): (r: Option<Order>)
    ensures r.Some? ==> r.value in orders && IsCart(r.value) && r.value.customerId == customer
    ensures r.None? ==> forall o :: o in orders ==> !(IsCart(o) && o.customerId == customer)
  {
    match CartIndex(orders, customer)
    case Some(k) => Some(orders[k])
    case None => None
  }

  /** The query OrderComplete and Delete share: this id, this customer,
      submitted. */
  function SubmittedOrderIndex(orders: seq<Order>, customer: UserId, id: int): (r: Option<nat>)
    ensures r.Some? ==> r.value < |orders| && orders[r.value].id == id
                        && orders[r.value].customerId == customer && orders[r.value].isSubmitted
    ensures r.None? ==> forall k :: 0 <= k < |orders| ==>
                          !(orders[k].id == id && orders[k].customerId == customer && orders[k].isSubmitted)
  {
    FirstIndex(orders, (o: Order) => o.id == id && o.customerId == customer && o.isSubmitted)
  }

  /** OrderComplete: the confirmation page shows only a submitted order of
      this customer, so never a cart. */
  function OrderComplete(orders: seq<Order>, customer: UserId, id: int): (r: Option<Order>)
    ensures r.Some? ==> r.value in orders && r.value.id == id && r.value.customerId == customer
                        && !IsCart(r.value)
    ensures r.None? ==> forall o :: o in orders ==> !(o.id == id && o.customerId == customer && o.isSubmitted)
  {
    match SubmittedOrderIndex(orders, customer, id)
    case Some(k) => Some(orders[k])
    case None => None
  }

  /** The line RemoveFromCart and UpdateCartItem act on: this id, in an
      unsubmitted order of this customer, for an item that still exists. */
  predicate IsOwnCartLine(orders: seq<Order>, items: seq<Item>, customer: UserId, lineId: int, l: OrderItem)
  {
    && l.id == lineId
    && HasItem(items, l.itemId)
    && match OrderIndex(orders, l.orderId)
       case Some(k) => orders[k].customerId == customer && IsCart(orders[k])
       case None => false
  }

  function FindCartLine(orders: seq<Order>, lines: seq<OrderItem>, items: seq<Item>, customer: UserId, lineId: int): (r: Option<nat>)
    ensures r.Some? ==> r.value < |lines| && IsOwnCartLine(orders, items, customer, lineId, lines[r.value])
    ensures r.None? ==> forall k :: 0 <= k < |lines| ==> !IsOwnCartLine(orders, items, customer, lineId, lines[k])
  {
    FirstIndex(lines, (l: OrderItem) => IsOwnCartLine(orders, items, customer, lineId, l))
  }

  // ---------------------------------------------------------------------
  // AddToCart
  // ---------------------------------------------------------------------

  /** The customer's cart, created empty when the customer has none, and
      its index in the new Orders table. */
  function WithCart(db: Db, customer: UserId, now: Time): (r: (Db, nat))
    ensures CartIndex(r.0.orders, customer) == Some(r.1)
    ensures r.0.items == db.items && r.0.orderItems == db.orderItems
    ensures r.0.nextItemId == db.nextItemId && r.0.nextOrderItemId == db.nextOrderItemId
    ensures CartIndex(db.orders, customer).Some? ==> r == (db, CartIndex(db.orders, customer).value)
    ensures CartIndex(db.orders, customer).None? ==>
              && r.0.orders == db.orders + [NewCart(db.nextOrderId, customer, now)]
              && r.0.nextOrderId == db.nextOrderId + 1
  {
    match CartIndex(db.orders, customer)
    case Some(c) => (db, c)
    case None =>
      CartIndexAfterNewCart(db.orders, db.nextOrderId, customer, now);
      (db.(orders := db.orders + [NewCart(db.nextOrderId, customer, now)], nextOrderId := db.nextOrderId + 1),
       |db.orders|)
  }

  /** AddToCart on the tables: the item must exist and have stock; then the
      customer's cart is found or created and one unit is reserved in it. */
  function AddToCartSpec(db: Db, customer: UserId, itemId: int, now: Time): (Db, OrderResult)
  {
    match ItemIndex(db.items, itemId)
    case None => (db, NotFound)
    case Some(k) =>
      if db.items[k].quantity <= 0 then (db, OutOfStock)
      else
        var (db1, c) := WithCart(db, customer, now);
        ReserveOne(db1, c, k)
  }

  /** One unit of item `k` moves from its stock onto the cart's line for
      it, a new line of quantity 1 when the cart at index `c` has none. */
  function ReserveOne(db: Db, c: nat, k: nat): (Db, OrderResult)
    requires c < |db.orders| && k < |db.items| && db.items[k].quantity > 0
  {
    var cartId := db.orders[c].id;
    var itemId := db.items[k].id;
    match LineForItem(db.orderItems, cartId, itemId)
    case Some(j) =>
      if db.items[k].quantity >= 1 then
        (db.(orderItems := db.orderItems[j := db.orderItems[j].(quantity := OneMore(db.orderItems[j].quantity))],
             items := SetStock(db.items, k, Reserve(db.items[k].quantity, 1))),
         Done)
      else
        (db, NotEnoughStock)
    case None =>
      (db.(orderItems := db.orderItems + [NewLine(db.nextOrderItemId, itemId, cartId)],
           nextOrderItemId := db.nextOrderItemId + 1,
           items := SetStock(db.items, k, Reserve(db.items[k].quantity, 1))),
       Done)
  }

  /** No line belongs to an order id that has not been handed out. */
  lemma NoLinesOfFreshOrder(lines: seq<OrderItem>, orders: seq<Order>, nextItemId: int, nextLineId: int, nextOrderId: int)
    requires LinesValid(lines, orders, nextItemId, nextLineId)
    requires forall k :: 0 <= k < |orders| ==> orders[k].id < nextOrderId
    ensures SumQty(lines, InOrder(nextOrderId)) == 0
  {
    forall k | 0 <= k < |lines| ensures !Selects(InOrder(nextOrderId), lines[k]) {
      var o := OrderIndex(orders, lines[k].orderId).value;
    }
    SumQtyNoneSelected(lines, InOrder(nextOrderId));
  }

  /** Creating the cart keeps the invariants, and a new cart holds nothing. */
  lemma WithCartKeepsValid(db: Db, customer: UserId, now: Time)
    requires DbValid(db)
    ensures var db1 := WithCart(db, customer, now).0;
            && DbValid(db1)
            && CartQuantity(db1.orders, db1.orderItems, customer) == CartQuantity(db.orders, db.orderItems, customer)
  {
    if CartIndex(db.orders, customer).None? {
      var o := NewCart(db.nextOrderId, customer, now);
      OrdersValidAfterNewCart(db.orders, db.nextOrderId, customer, now);
      LinesValidAfterNewOrder(db.orderItems, db.orders, db.nextItemId, db.nextOrderItemId, o);
      NoLinesOfFreshOrder(db.orderItems, db.orders, db.nextItemId, db.nextOrderItemId, db.nextOrderId);
    }
  }

  /** Raising a cart line by one adds one to the item's reserved quantity
      and one to the cart's. */
  lemma OneMoreOnLine(orders: seq<Order>, lines: seq<OrderItem>, customer: UserId, c: nat, j: nat)
    requires CartIndex(orders, customer) == Some(c)
    requires j < |lines| && lines[j].orderId == orders[c].id
    ensures var lines' := lines[j := lines[j].(quantity := OneMore(lines[j].quantity))];
            && (forall id :: SumQty(lines', OfItem(id)) == SumQty(lines, OfItem(id)) + (if id == lines[j].itemId then 1 else 0))
            && CartQuantity(orders, lines', customer) == CartQuantity(orders, lines, customer) + 1
  {
    var line' := lines[j].(quantity := OneMore(lines[j].quantity));
    SumQtyUpdate(lines, j, line', InOrder(orders[c].id));
    forall id { SumQtyUpdate(lines, j, line', OfItem(id)); }
  }

  /** A new line of quantity 1 on the cart adds one to the item's reserved
      quantity and one to the cart's. */
  lemma OneOnNewLine(orders: seq<Order>, lines: seq<OrderItem>, nextLineId: int, customer: UserId, c: nat, itemId: int)
    requires CartIndex(orders, customer) == Some(c)
    ensures var lines' := lines + [NewLine(nextLineId, itemId, orders[c].id)];
            && (forall id :: SumQty(lines', OfItem(id)) == SumQty(lines, OfItem(id)) + (if id == itemId then 1 else 0))
            && CartQuantity(orders, lines', customer) == CartQuantity(orders, lines, customer) + 1
  {
    var line := NewLine(nextLineId, itemId, orders[c].id);
    SumQtyAppend(lines, line, InOrder(orders[c].id));
    forall id { SumQtyAppend(lines, line, OfItem(id)); }
  }

  /** Reserving one unit in the cart keeps the invariants. */
  lemma ReserveOneKeepsValid(db: Db, customer: UserId, c: nat, k: nat)
    requires DbValid(db)
    requires CartIndex(db.orders, customer) == Some(c)
    requires k < |db.items| && db.items[k].quantity > 0
    ensures ReserveOne(db, c, k).1 == Done
    ensures DbValid(ReserveOne(db, c, k).0)
  {
    var cartId := db.orders[c].id;
    var itemId := db.items[k].id;
    ItemsValidAfterSet(db.items, db.nextItemId, k, Reserve(db.items[k].quantity, 1));
    match LineForItem(db.orderItems, cartId, itemId)
    case Some(j) =>
      LinesValidAfterSet(db.orderItems, db.orders, db.nextItemId, db.nextOrderItemId, j, OneMore(db.orderItems[j].quantity));
    case None =>
      OrderIndexFinds(db.orders, c);
      LinesValidAfterAppend(db.orderItems, db.orders, db.nextItemId, db.nextOrderItemId,
                            NewLine(db.nextOrderItemId, itemId, cartId));
  }

  /** `d` units of item `k` leave its stock and land on its lines and in
      the customer's cart (a negative `d` gives them back): every item's
      stock plus reservations is conserved. */
  lemma UnitsMoved(db: Db, db': Db, customer: UserId, k: nat, d: int)
    requires UniqueItemIds(db.items) && k < |db.items|
    requires db'.items == SetStock(db.items, k, db.items[k].quantity - d) && db'.orders == db.orders
    requires forall id :: SumQty(db'.orderItems, OfItem(id)) == SumQty(db.orderItems, OfItem(id)) + (if id == db.items[k].id then d else 0)
    requires CartQuantity(db.orders, db'.orderItems, customer) == CartQuantity(db.orders, db.orderItems, customer) + d
    ensures var itemId := db.items[k].id;
            && (forall id :: Total(db'.items, db'.orderItems, id) == Total(db.items, db.orderItems, id))
            && StockOf(db'.items, itemId) == StockOf(db.items, itemId) - d
            && SumQty(db'.orderItems, OfItem(itemId)) == SumQty(db.orderItems, OfItem(itemId)) + d
            && CartQuantity(db'.orders, db'.orderItems, customer) == CartQuantity(db.orders, db.orderItems, customer) + d
            && (forall x :: x != itemId ==> StockOf(db'.items, x) == StockOf(db.items, x))
  {
    forall x { StockAfterSet(db.items, k, db.items[k].quantity - d, x); }
    TotalsAfterMove(db.items, db.orderItems, db'.orderItems, k, d, db.items[k].quantity - d);
  }

  /** Reserving one unit in the cart takes one unit off the item's stock
      and puts it on the item's lines and in the cart. */
  lemma ReserveOneMovesOneUnit(db: Db, customer: UserId, c: nat, k: nat)
    requires UniqueItemIds(db.items)
    requires CartIndex(db.orders, customer) == Some(c)
    requires k < |db.items| && db.items[k].quantity > 0
    ensures var (db', r) := ReserveOne(db, c, k);
            var itemId := db.items[k].id;
            && (forall id :: Total(db'.items, db'.orderItems, id) == Total(db.items, db.orderItems, id))
            && StockOf(db'.items, itemId) == StockOf(db.items, itemId) - 1
            && SumQty(db'.orderItems, OfItem(itemId)) == SumQty(db.orderItems, OfItem(itemId)) + 1
            && CartQuantity(db'.orders, db'.orderItems, customer) == CartQuantity(db.orders, db.orderItems, customer) + 1
            && (forall x :: x != itemId ==> StockOf(db'.items, x) == StockOf(db.items, x))
  {
    var cartId := db.orders[c].id;
    var itemId := db.items[k].id;
    var db' := ReserveOne(db, c, k).0;
    assert db'.items == SetStock(db.items, k, db.items[k].quantity - 1) && db'.orders == db.orders;
    match LineForItem(db.orderItems, cartId, itemId)
    case Some(j) =>
      assert db'.orderItems == db.orderItems[j := db.orderItems[j].(quantity := OneMore(db.orderItems[j].quantity))];
      OneMoreOnLine(db.orders, db.orderItems, customer, c, j);
      UnitsMoved(db, db', customer, k, 1);
    case None =>
      assert db'.orderItems == db.orderItems + [NewLine(db.nextOrderItemId, itemId, cartId)];
      OneOnNewLine(db.orders, db.orderItems, db.nextOrderItemId, customer, c, itemId);
      UnitsMoved(db, db', customer, k, 1);
  }

  /** Which line takes the reserved unit: the cart's line for the item
      goes up by one, or, when the cart has none, a new line of one unit
      is appended. Only the item's stock changes in Items; Orders and the
      other lines stay. */
  lemma ReserveOneLineCase(db: Db, c: nat, k: nat)
    requires c < |db.orders| && k < |db.items| && db.items[k].quantity > 0
    ensures var db' := ReserveOne(db, c, k).0;
            && db'.orders == db.orders
            && db'.items == SetStock(db.items, k, db.items[k].quantity - 1)
            && match LineForItem(db.orderItems, db.orders[c].id, db.items[k].id)
               case Some(j) =>
                 db'.orderItems == db.orderItems[j := db.orderItems[j].(quantity := OneMore(db.orderItems[j].quantity))]
               case None =>
                 db'.orderItems == db.orderItems + [NewLine(db.nextOrderItemId, db.items[k].id, db.orders[c].id)]
  {
  }

  /** What AddToCart answers: NotFound exactly for an unknown item, the
      silent return exactly for an item without stock, Done otherwise. The
      "Not enough stock available" branch is never taken, and only Done
      changes anything. */
  lemma AddToCartOutcome(db: Db, customer: UserId, itemId: int, now: Time)
    ensures var (db', r) := AddToCartSpec(db, customer, itemId, now);
            && (r == NotFound <==> !HasItem(db.items, itemId))
            && (r == OutOfStock <==> HasItem(db.items, itemId) && StockOf(db.items, itemId) <= 0)
            && (r == Done <==> HasItem(db.items, itemId) && StockOf(db.items, itemId) > 0)
            && (r != Done ==> db' == db)
  {
  }

  /** AddToCart keeps the invariants, one cart per customer among them. */
  lemma AddToCartKeepsValid(db: Db, customer: UserId, itemId: int, now: Time)
    requires DbValid(db)
    ensures DbValid(AddToCartSpec(db, customer, itemId, now).0)
  {
    match ItemIndex(db.items, itemId)
    case None =>
    case Some(k) =>
      if db.items[k].quantity > 0 {
        WithCartKeepsValid(db, customer, now);
        var (db1, c) := WithCart(db, customer, now);
        ReserveOneKeepsValid(db1, customer, c, k);
      }
  }

  /** AddToCart moves exactly one unit of the item from its stock into the
      customer's cart, which exists afterwards: every item's stock plus
      reservations is conserved. */
  lemma AddToCartMovesOneUnit(db: Db, customer: UserId, itemId: int, now: Time)
    requires DbValid(db)
    ensures var (db', r) := AddToCartSpec(db, customer, itemId, now);
            && (forall id :: Total(db'.items, db'.orderItems, id) == Total(db.items, db.orderItems, id))
            && (r == Done ==>
                  && StockOf(db'.items, itemId) == StockOf(db.items, itemId) - 1
                  && SumQty(db'.orderItems, OfItem(itemId)) == SumQty(db.orderItems, OfItem(itemId)) + 1
                  && CartQuantity(db'.orders, db'.orderItems, customer) == CartQuantity(db.orders, db.orderItems, customer) + 1
                  && (forall x :: x != itemId ==> StockOf(db'.items, x) == StockOf(db.items, x))
                  && ItemIndex(db.items, itemId).Some?
                  && db'.items == SetStock(db.items, ItemIndex(db.items, itemId).value,
                                           db.items[ItemIndex(db.items, itemId).value].quantity - 1)
                  && CartIndex(db'.orders, customer).Some?
                  && var cartId := db'.orders[CartIndex(db'.orders, customer).value].id;
                     match LineForItem(db.orderItems, cartId, itemId)
                     case Some(j) =>
                       db'.orderItems == db.orderItems[j := db.orderItems[j].(quantity := OneMore(db.orderItems[j].quantity))]
                     case None =>
                       db'.orderItems == db.orderItems + [NewLine(db.nextOrderItemId, itemId, cartId)])
  {
    AddToCartLineCase(db, customer, itemId, now);
    match ItemIndex(db.items, itemId)
    case None =>
    case Some(k) =>
      if db.items[k].quantity > 0 {
        WithCartKeepsValid(db, customer, now);
        var (db1, c) := WithCart(db, customer, now);
        ReserveOneMovesOneUnit(db1, customer, c, k);
      }
  }

  /** The rows AddToCart writes: one unit comes off the item's stock, and
      the cart's line for the item goes up by one, or a new line of one
      unit is appended. */
  lemma AddToCartLineCase(db: Db, customer: UserId, itemId: int, now: Time)
    ensures var (db', r) := AddToCartSpec(db, customer, itemId, now);
            r == Done ==>
              && ItemIndex(db.items, itemId).Some?
              && db'.items == SetStock(db.items, ItemIndex(db.items, itemId).value,
                                       db.items[ItemIndex(db.items, itemId).value].quantity - 1)
              && CartIndex(db'.orders, customer).Some?
              && var cartId := db'.orders[CartIndex(db'.orders, customer).value].id;
                 match LineForItem(db.orderItems, cartId, itemId)
                 case Some(j) =>
                   db'.orderItems == db.orderItems[j := db.orderItems[j].(quantity := OneMore(db.orderItems[j].quantity))]
                 case None =>
                   db'.orderItems == db.orderItems + [NewLine(db.nextOrderItemId, itemId, cartId)]
  {
    match ItemIndex(db.items, itemId)
    case None =>
    case Some(k) =>
      if db.items[k].quantity > 0 {
        var (db1, c) := WithCart(db, customer, now);
        ReserveOneLineCase(db1, c, k);
      }
  }

  /** AddToCart touches the Orders table only to create a missing cart: an
      existing cart is reused and every other order stays as it was. */
  lemma AddToCartReusesCart(db: Db, customer: UserId, itemId: int, now: Time)
    ensures var (db', r) := AddToCartSpec(db, customer, itemId, now);
            && (r != Done || CartIndex(db.orders, customer).Some? ==> db'.orders == db.orders)
            && (r == Done && CartIndex(db.orders, customer).None? ==>
                  db'.orders == db.orders + [NewCart(db.nextOrderId, customer, now)])
            && (r == Done ==>
                  CartIndex(db'.orders, customer) ==
                    if CartIndex(db.orders, customer).Some? then CartIndex(db.orders, customer) else Some(|db.orders|))
  {
    match ItemIndex(db.items, itemId)
    case None =>
    case Some(k) =>
      if db.items[k].quantity > 0 {
        var (db1, c) := WithCart(db, customer, now);
        assert ReserveOne(db1, c, k).0.orders == db1.orders;
      }
  }

  /** AddToCart: reserve one unit of the item in the customer's cart,
      creating the cart if the customer has none. */
  method AddToCart(ctx: FoodContext, customer: UserId, itemId: int, now: Time) returns (r: OrderResult)
    requires ctx.Valid()
    modifies ctx
    ensures (ctx.State(), r) == AddToCartSpec(old(ctx.State()), customer, itemId, now)
    ensures ctx.Valid()
  {
    AddToCartKeepsValid(ctx.State(), customer, itemId, now);
    var found := ItemIndex(ctx.items, itemId);
    if found.None? {
      return NotFound;
    }
    var k := found.value;
    if ctx.items[k].quantity <= 0 {
      return OutOfStock;
    }
    var cart := CartIndex(ctx.orders, customer);
    var c: nat;
    if cart.None? {
      c := |ctx.orders|;
      ctx.orders := ctx.orders + [NewCart(ctx.nextOrderId, customer, now)];
      ctx.nextOrderId := ctx.nextOrderId + 1;
    } else {
      c := cart.value;
    }
    var cartId := ctx.orders[c].id;
    var existing := LineForItem(ctx.orderItems, cartId, itemId);
    if existing.Some? {
      var j := existing.value;
      if ctx.items[k].quantity >= 1 {
        ctx.orderItems := ctx.orderItems[j := ctx.orderItems[j].(quantity := OneMore(ctx.orderItems[j].quantity))];
        ctx.items := SetStock(ctx.items, k, Reserve(ctx.items[k].quantity, 1));
      } else {
        return NotEnoughStock;
      }
    } else {
      ctx.orderItems := ctx.orderItems + [NewLine(ctx.nextOrderItemId, itemId, cartId)];
      ctx.nextOrderItemId := ctx.nextOrderItemId + 1;
      ctx.items := SetStock(ctx.items, k, Reserve(ctx.items[k].quantity, 1));
    }
    r := Done;
  }

  // ---------------------------------------------------------------------
  // RemoveFromCart
  // ---------------------------------------------------------------------

  /** A line RemoveFromCart or UpdateCartItem finds lies in the customer's
      one cart. */
  lemma OwnLineIsInCart(orders: seq<Order>, items: seq<Item>, customer: UserId, lineId: int, l: OrderItem)
    requires UniqueOrderIds(orders) && AtMostOneCart(orders)
    requires IsOwnCartLine(orders, items, customer, lineId, l)
    ensures CartIndex(orders, customer).Some?
    ensures l.orderId == orders[CartIndex(orders, customer).value].id
  {
    var o := OrderIndex(orders, l.orderId).value;
    var c := CartIndex(orders, customer);
    assert c.Some?;
    assert c.value == o;
  }

  /** RemoveFromCart on the tables: the customer's cart line goes, and its
      quantity goes back to the item's stock. */
  function RemoveFromCartSpec(db: Db, customer: UserId, lineId: int): (Db, OrderResult)
  {
    match FindCartLine(db.orders, db.orderItems, db.items, customer, lineId)
    case None => (db, NotFound)
    case Some(j) =>
      var l := db.orderItems[j];
      var k := ItemIndex(db.items, l.itemId).value;
      (db.(items := SetStock(db.items, k, Restock(db.items[k].quantity, l.quantity)),
           orderItems := RemoveAt(db.orderItems, j)),
       Done)
  }

  lemma RemoveFromCartKeepsValid(db: Db, customer: UserId, lineId: int)
    requires DbValid(db)
    ensures DbValid(RemoveFromCartSpec(db, customer, lineId).0)
  {
    match FindCartLine(db.orders, db.orderItems, db.items, customer, lineId)
    case None =>
    case Some(j) =>
      var k := ItemIndex(db.items, db.orderItems[j].itemId).value;
      ItemsValidAfterSet(db.items, db.nextItemId, k, Restock(db.items[k].quantity, db.orderItems[j].quantity));
      LinesValidAfterRemove(db.orderItems, db.orders, db.nextItemId, db.nextOrderItemId, j);
  }

  /** RemoveFromCart gives the line's whole quantity back to the item's
      stock and takes it out of the cart; every item's stock plus
      reservations is conserved, and an unknown line changes nothing. */
  lemma RemoveFromCartReturnsStock(db: Db, customer: UserId, lineId: int)
    requires UniqueItemIds(db.items) && UniqueOrderIds(db.orders) && AtMostOneCart(db.orders)
    ensures var (db', r) := RemoveFromCartSpec(db, customer, lineId);
            && (r == NotFound || r == Done)
            && (r == NotFound ==> db' == db)
            && (forall id :: Total(db'.items, db'.orderItems, id) == Total(db.items, db.orderItems, id))
            && (r == Done ==>
                  var l := db.orderItems[FindCartLine(db.orders, db.orderItems, db.items, customer, lineId).value];
                  && StockOf(db'.items, l.itemId) == StockOf(db.items, l.itemId) + l.quantity
                  && SumQty(db'.orderItems, OfItem(l.itemId)) == SumQty(db.orderItems, OfItem(l.itemId)) - l.quantity
                  && CartQuantity(db'.orders, db'.orderItems, customer) == CartQuantity(db.orders, db.orderItems, customer) - l.quantity
                  && db'.orders == db.orders
                  && db'.orderItems == RemoveAt(db.orderItems, FindCartLine(db.orders, db.orderItems, db.items, customer, lineId).value)
                  && (forall x :: x != l.itemId ==> StockOf(db'.items, x) == StockOf(db.items, x))
                  && ItemIndex(db.items, l.itemId).Some?
                  && db'.items == SetStock(db.items, ItemIndex(db.items, l.itemId).value,
                                           db.items[ItemIndex(db.items, l.itemId).value].quantity + l.quantity))
  {
    match FindCartLine(db.orders, db.orderItems, db.items, customer, lineId)
    case None =>
    case Some(j) =>
      var l := db.orderItems[j];
      var k := ItemIndex(db.items, l.itemId).value;
      var db' := RemoveFromCartSpec(db, customer, lineId).0;
      OwnLineIsInCart(db.orders, db.items, customer, lineId, l);
      var c := CartIndex(db.orders, customer).value;
      SumQtyRemove(db.orderItems, j, InOrder(db.orders[c].id));
      forall id { SumQtyRemove(db.orderItems, j, OfItem(id)); }
      assert db'.items == SetStock(db.items, k, db.items[k].quantity - (-l.quantity)) && db'.orders == db.orders;
      UnitsMoved(db, db', customer, k, -l.quantity);
  }

  /** Line ids are unique, so a removed line cannot be removed again. */
  lemma RemoveFromCartTwice(db: Db, customer: UserId, lineId: int)
    requires LineKeysUnique(db.orderItems)
    ensures var (db', r) := RemoveFromCartSpec(db, customer, lineId);
            r == Done ==> RemoveFromCartSpec(db', customer, lineId) == (db', NotFound)
  {
    match FindCartLine(db.orders, db.orderItems, db.items, customer, lineId)
    case None =>
    case Some(j) =>
      var db' := RemoveFromCartSpec(db, customer, lineId).0;
      forall i | 0 <= i < |db'.orderItems| ensures db'.orderItems[i].id != lineId {
        var i' := if i < j then i else i + 1;
        assert db'.orderItems[i] == db.orderItems[i'];
      }
  }

  /** RemoveFromCart: delete one line of the customer's cart and give its
      quantity back to the item's stock. */
  method RemoveFromCart(ctx: FoodContext, customer: UserId, lineId: int) returns (r: OrderResult)
    requires ctx.Valid()
    modifies ctx
    ensures (ctx.State(), r) == RemoveFromCartSpec(old(ctx.State()), customer, lineId)
    ensures ctx.Valid()
  {
    RemoveFromCartKeepsValid(ctx.State(), customer, lineId);
    var found := FindCartLine(ctx.orders, ctx.orderItems, ctx.items, customer, lineId);
    if found.None? {
      return NotFound;
    }
    var j := found.value;
    var l := ctx.orderItems[j];
    var k := ItemIndex(ctx.items, l.itemId).value;
    ctx.items := SetStock(ctx.items, k, ctx.items[k].quantity + l.quantity);
    ctx.orderItems := RemoveAt(ctx.orderItems, j);
    r := Done;
  }

  // ---------------------------------------------------------------------
  // UpdateCartItem
  // ---------------------------------------------------------------------

  /** UpdateCartItem on the tables: a quantity of zero or less is handed on
      to RemoveFromCart; otherwise the cart line takes the new quantity and
      the item's stock pays for (or is refunded) the difference, provided
      the stock covers an increase. */
  function UpdateCartItemSpec(db: Db, customer: UserId, lineId: int, quantity: int): (Db, OrderResult)
  {
    if quantity <= 0 then (db, RemoveRequested)
    else
      match FindCartLine(db.orders, db.orderItems, db.items, customer, lineId)
      case None => (db, NotFound)
      case Some(j) =>
        var l := db.orderItems[j];
        var k := ItemIndex(db.items, l.itemId).value;
        var diff := quantity - l.quantity;
        if diff > 0 && db.items[k].quantity < diff then (db, NotEnoughStock)
        else
          (db.(items := SetStock(db.items, k, db.items[k].quantity - diff),
               orderItems := db.orderItems[j := l.(quantity := quantity)]),
           Done)
  }

  lemma UpdateCartItemKeepsValid(db: Db, customer: UserId, lineId: int, quantity: int)
    requires DbValid(db)
    ensures DbValid(UpdateCartItemSpec(db, customer, lineId, quantity).0)
  {
    if quantity > 0 {
      match FindCartLine(db.orders, db.orderItems, db.items, customer, lineId)
      case None =>
      case Some(j) =>
        var k := ItemIndex(db.items, db.orderItems[j].itemId).value;
        var diff := quantity - db.orderItems[j].quantity;
        if !(diff > 0 && db.items[k].quantity < diff) {
          ItemsValidAfterSet(db.items, db.nextItemId, k, db.items[k].quantity - diff);
          LinesValidAfterSet(db.orderItems, db.orders, db.nextItemId, db.nextOrderItemId, j, quantity);
        }
    }
  }

  /** UpdateCartItem sets the line to the requested quantity and moves the
      difference between the item's stock and the cart; it refuses exactly
      the increases the stock cannot cover, and every item's stock plus
      reservations is conserved. */
  lemma UpdateCartItemMovesDifference(db: Db, customer: UserId, lineId: int, quantity: int)
    requires ItemsValid(db.items, db.nextItemId) && UniqueOrderIds(db.orders) && AtMostOneCart(db.orders)
    ensures var (db', r) := UpdateCartItemSpec(db, customer, lineId, quantity);
            var found := FindCartLine(db.orders, db.orderItems, db.items, customer, lineId);
            && (r == RemoveRequested <==> quantity <= 0)
            && (r == NotFound <==> quantity > 0 && found.None?)
            && (r == NotEnoughStock <==>
                  quantity > 0 && found.Some?
                  && quantity - db.orderItems[found.value].quantity > StockOf(db.items, db.orderItems[found.value].itemId))
            && (r != Done ==> db' == db)
            && (forall id :: Total(db'.items, db'.orderItems, id) == Total(db.items, db.orderItems, id))
            && (r == Done ==>
                  var l := db.orderItems[found.value];
                  var diff := quantity - l.quantity;
                  && db'.orderItems[found.value] == l.(quantity := quantity)
                  && StockOf(db'.items, l.itemId) == StockOf(db.items, l.itemId) - diff
                  && CartQuantity(db'.orders, db'.orderItems, customer) == CartQuantity(db.orders, db.orderItems, customer) + diff
                  && db'.orders == db.orders
                  && |db'.orderItems| == |db.orderItems|
                  && (forall i :: 0 <= i < |db.orderItems| && i != found.value ==> db'.orderItems[i] == db.orderItems[i])
                  && (forall x :: x != l.itemId ==> StockOf(db'.items, x) == StockOf(db.items, x))
                  && ItemIndex(db.items, l.itemId).Some?
                  && db'.items == SetStock(db.items, ItemIndex(db.items, l.itemId).value,
                                           db.items[ItemIndex(db.items, l.itemId).value].quantity - diff))
  {
    if quantity > 0 {
      match FindCartLine(db.orders, db.orderItems, db.items, customer, lineId)
      case None =>
      case Some(j) =>
        var l := db.orderItems[j];
        var k := ItemIndex(db.items, l.itemId).value;
        var diff := quantity - l.quantity;
        if !(diff > 0 && db.items[k].quantity < diff) {
          var db' := UpdateCartItemSpec(db, customer, lineId, quantity).0;
          var l' := l.(quantity := quantity);
          OwnLineIsInCart(db.orders, db.items, customer, lineId, l);
          var c := CartIndex(db.orders, customer).value;
          SumQtyUpdate(db.orderItems, j, l', InOrder(db.orders[c].id));
          forall id { SumQtyUpdate(db.orderItems, j, l', OfItem(id)); }
          assert db'.items == SetStock(db.items, k, db.items[k].quantity - diff) && db'.orders == db.orders;
          assert db'.orderItems == db.orderItems[j := l'];
          UnitsMoved(db, db', customer, k, diff);
        }
    }
  }

  /** Changing a line's quantity or an item's stock does not change which
      line FindCartLine finds. */
  lemma FindCartLineAfterSet(orders: seq<Order>, lines: seq<OrderItem>, items: seq<Item>,
                             customer: UserId, lineId: int, j: nat, n: int, k: nat, q: int)
    requires j < |lines| && k < |items|
    ensures FindCartLine(orders, lines[j := lines[j].(quantity := n)], SetStock(items, k, q), customer, lineId)
            == FindCartLine(orders, lines, items, customer, lineId)
  {
    var lines' := lines[j := lines[j].(quantity := n)];
    var items' := SetStock(items, k, q);
    forall i | 0 <= i < |lines|
      ensures IsOwnCartLine(orders, items', customer, lineId, lines'[i]) == IsOwnCartLine(orders, items, customer, lineId, lines[i])
    {
      ItemIndexAfterSet(items, k, q, lines[i].itemId);
    }
    FirstIndexAgrees(lines', lines, (x: OrderItem) => IsOwnCartLine(orders, items', customer, lineId, x),
                     (x: OrderItem) => IsOwnCartLine(orders, items, customer, lineId, x));
  }

  /** Setting a line back to its old quantity restores the tables: the
      stock the first update took or gave is exactly undone. */
  lemma UpdateCartItemUndo(db: Db, customer: UserId, lineId: int, quantity: int)
    requires ItemsValid(db.items, db.nextItemId)
    requires QuantitiesPositive(db.orderItems)
    ensures var (db', r) := UpdateCartItemSpec(db, customer, lineId, quantity);
            r == Done ==>
              var oldQuantity := db.orderItems[FindCartLine(db.orders, db.orderItems, db.items, customer, lineId).value].quantity;
              UpdateCartItemSpec(db', customer, lineId, oldQuantity) == (db, Done)
  {
    if quantity > 0 {
      match FindCartLine(db.orders, db.orderItems, db.items, customer, lineId)
      case None =>
      case Some(j) =>
        var l := db.orderItems[j];
        var k := ItemIndex(db.items, l.itemId).value;
        var diff := quantity - l.quantity;
        if !(diff > 0 && db.items[k].quantity < diff) {
          var stock' := db.items[k].quantity - diff;
          var items' := SetStock(db.items, k, stock');
          var lines' := db.orderItems[j := l.(quantity := quantity)];
          assert UpdateCartItemSpec(db, customer, lineId, quantity).0 == db.(items := items', orderItems := lines');
          FindCartLineAfterSet(db.orders, db.orderItems, db.items, customer, lineId, j, quantity, k, stock');
          ItemIndexAfterSet(db.items, k, stock', l.itemId);
          assert lines'[j] == l.(quantity := quantity);
          assert SetStock(items', k, stock' + diff) == db.items;
          assert lines'[j := lines'[j].(quantity := l.quantity)] == db.orderItems;
        }
    }
  }

  /** UpdateCartItem: set a cart line's quantity, taking the difference
      from (or giving it back to) the item's stock. */
  method UpdateCartItem(ctx: FoodContext, customer: UserId, lineId: int, quantity: int) returns (r: OrderResult)
    requires ctx.Valid()
    modifies ctx
    ensures (ctx.State(), r) == UpdateCartItemSpec(old(ctx.State()), customer, lineId, quantity)
    ensures ctx.Valid()
  {
    UpdateCartItemKeepsValid(ctx.State(), customer, lineId, quantity);
    if quantity <= 0 {
      return RemoveRequested;
    }
    var found := FindCartLine(ctx.orders, ctx.orderItems, ctx.items, customer, lineId);
    if found.None? {
      return NotFound;
    }
    var j := found.value;
    var l := ctx.orderItems[j];
    var k := ItemIndex(ctx.items, l.itemId).value;
    var diff := quantity - l.quantity;
    if diff > 0 && ctx.items[k].quantity < diff {
      return NotEnoughStock;
    }
    ctx.items := SetStock(ctx.items, k, ctx.items[k].quantity - diff);
    ctx.orderItems := ctx.orderItems[j := l.(quantity := quantity)];
    r := Done;
  }

  // ---------------------------------------------------------------------
  // Checkout
  // ---------------------------------------------------------------------

  /** Checkout on the tables: a cart with at least one line becomes a
      submitted order, stamped `now`. */
  function CheckoutSpec(db: Db, customer: UserId, now: Time): (Db, OrderResult)
  {
    match CartIndex(db.orders, customer)
    case None => (db, EmptyCart)
    case Some(c) =>
      if LinesOf(db.orderItems, db.orders[c].id) == [] then (db, EmptyCart)
      else (db.(orders := db.orders[c := Submitted(db.orders[c], now)]), CheckedOut(db.orders[c].id))
  }

  lemma CheckoutKeepsValid(db: Db, customer: UserId, now: Time)
    requires DbValid(db)
    ensures DbValid(CheckoutSpec(db, customer, now).0)
  {
    match CartIndex(db.orders, customer)
    case None =>
    case Some(c) =>
      OrdersValidAfterSubmit(db.orders, db.nextOrderId, c, now);
      LinesValidAfterOrderSet(db.orderItems, db.orders, db.nextItemId, db.nextOrderItemId, c, Submitted(db.orders[c], now));
  }

  /** With positive quantities, an order's lines sum to zero exactly when
      it has no lines. */
  lemma {:induction false} SumQtyZeroIffNoLines(lines: seq<OrderItem>, orderId: int)
    requires QuantitiesPositive(lines)
    ensures SumQty(lines, InOrder(orderId)) == 0 <==> LinesOf(lines, orderId) == []
  {
    if lines != [] {
      var init := lines[..|lines| - 1];
      var last := lines[|lines| - 1];
      SumQtyZeroIffNoLines(init, orderId);
      SumQtyNonNegative(init, InOrder(orderId));
      assert LinesOf(lines, orderId) == LinesOf(init, orderId) + (if last.orderId == orderId then [last] else []);
    }
  }

  /** Checkout refuses exactly an empty cart: no cart, or a cart whose
      lines hold nothing. */
  lemma CheckoutRefusesEmptyCart(db: Db, customer: UserId, now: Time)
    requires QuantitiesPositive(db.orderItems)
    ensures var (db', r) := CheckoutSpec(db, customer, now);
            && (r == EmptyCart || r.CheckedOut?)
            && (r == EmptyCart <==> CartQuantity(db.orders, db.orderItems, customer) == 0)
            && (r == EmptyCart ==> db' == db)
  {
    match CartIndex(db.orders, customer)
    case None =>
    case Some(c) =>
      SumQtyZeroIffNoLines(db.orderItems, db.orders[c].id);
  }

  /** After Checkout the customer has no cart (so the badge shows zero),
      the confirmation page finds the cart as a submitted order, and no
      stock or line changes. */
  lemma CheckoutSubmitsCart(db: Db, customer: UserId, now: Time)
    requires UniqueOrderIds(db.orders) && AtMostOneCart(db.orders)
    ensures var (db', r) := CheckoutSpec(db, customer, now);
            r.CheckedOut? ==>
              && Cart(db.orders, customer).Some? && Cart(db.orders, customer).value.id == r.orderId
              && Cart(db'.orders, customer) == None
              && CartQuantity(db'.orders, db'.orderItems, customer) == 0
              && OrderComplete(db'.orders, customer, r.orderId) == Some(Submitted(Cart(db.orders, customer).value, now))
              && db'.items == db.items && db'.orderItems == db.orderItems
              && CartIndex(db.orders, customer).Some?
              && |db'.orders| == |db.orders|
              && (forall k :: 0 <= k < |db.orders| && k != CartIndex(db.orders, customer).value ==> db'.orders[k] == db.orders[k])
  {
    match CartIndex(db.orders, customer)
    case None =>
    case Some(c) =>
      if LinesOf(db.orderItems, db.orders[c].id) != [] {
        var orders' := db.orders[c := Submitted(db.orders[c], now)];
        forall k | 0 <= k < |orders'| ensures !(IsCart(orders'[k]) && orders'[k].customerId == customer) {
          if k != c {
            assert orders'[k] == db.orders[k];
          }
        }
        var found := SubmittedOrderIndex(orders', customer, db.orders[c].id);
        assert orders'[c] == Submitted(db.orders[c], now);
        assert found.Some?;
        assert found.value == c;
      }
  }

  /** Checkout: turn the customer's cart into a submitted order. */
  method Checkout(ctx: FoodContext, customer: UserId, now: Time) returns (r: OrderResult)
    requires ctx.Valid()
    modifies ctx
    ensures (ctx.State(), r) == CheckoutSpec(old(ctx.State()), customer, now)
    ensures ctx.Valid()
  {
    CheckoutKeepsValid(ctx.State(), customer, now);
    var cart := CartIndex(ctx.orders, customer);
    if cart.None? || LinesOf(ctx.orderItems, ctx.orders[cart.value].id) == [] {
      return EmptyCart;
    }
    var c := cart.value;
    ctx.orders := ctx.orders[c := ctx.orders[c].(isSubmitted := true, submittedAt := Some(now))];
    r := CheckedOut(ctx.orders[c].id);
  }

  // ---------------------------------------------------------------------
  // Delete
  // ---------------------------------------------------------------------

  /** One pass of Delete's loop: the line's quantity goes back to its
      item, when the item still exists. */
  function RestockLine(items: seq<Item>, l: OrderItem): (r: seq<Item>)
    ensures |r| == |items|
    ensures forall i :: 0 <= i < |items| ==> r[i].id == items[i].id && r[i].storeId == items[i].storeId
    ensures forall i :: 0 <= i < |items| ==>
              r[i].quantity == items[i].quantity + (if ItemIndex(items, l.itemId) == Some(i) then l.quantity else 0)
    ensures forall i :: 0 <= i < |items| ==> r[i] == items[i].(quantity := r[i].quantity)
  {
    match ItemIndex(items, l.itemId)
    case Some(k) => SetStock(items, k, Restock(items[k].quantity, l.quantity))
    case None => items
  }

  /** Delete's loop over the lines `ls`, in order. */
  function RestockAll(items: seq<Item>, ls: seq<OrderItem>): (r: seq<Item>)
    ensures |r| == |items|
    ensures forall i :: 0 <= i < |items| ==> r[i].id == items[i].id && r[i].storeId == items[i].storeId
    ensures forall i :: 0 <= i < |items| ==> r[i] == items[i].(quantity := r[i].quantity)
    decreases |ls|
  {
    if ls == [] then items
    else RestockLine(RestockAll(items, ls[..|ls| - 1]), ls[|ls| - 1])
  }

  /** Tables with the same ids in the same rows answer lookups alike. */
  lemma SameIdsSameIndex(a: seq<Item>, b: seq<Item>, id: int)
    requires |a| == |b| && forall i :: 0 <= i < |a| ==> a[i].id == b[i].id
    ensures ItemIndex(a, id) == ItemIndex(b, id)
  {
    FirstIndexAgrees(a, b, (it: Item) => it.id == id, (it: Item) => it.id == id);
  }

  /** Giving back every line of `ls` adds, to each existing item's stock,
      exactly the quantities those lines reserved for it. */
  lemma {:induction false} RestockAllStock(items: seq<Item>, ls: seq<OrderItem>, x: int)
    requires UniqueItemIds(items)
    ensures StockOf(RestockAll(items, ls), x) == StockOf(items, x) + (if HasItem(items, x) then SumQty(ls, OfItem(x)) else 0)
    decreases |ls|
  {
    if ls != [] {
      var init := ls[..|ls| - 1];
      var last := ls[|ls| - 1];
      RestockAllStock(items, init, x);
      var mid := RestockAll(items, init);
      SameIdsSameIndex(mid, items, x);
      SameIdsSameIndex(mid, items, last.itemId);
      match ItemIndex(mid, last.itemId)
      case Some(k) =>
        StockAfterSet(mid, k, Restock(mid[k].quantity, last.quantity), x);
      case None =>
    }
  }

  /** With non-negative line quantities no stock goes down. */
  lemma {:induction false} RestockAllGrows(items: seq<Item>, ls: seq<OrderItem>)
    requires QuantitiesPositive(ls)
    ensures forall i :: 0 <= i < |items| ==> RestockAll(items, ls)[i].quantity >= items[i].quantity
    decreases |ls|
  {
    if ls != [] {
      RestockAllGrows(items, ls[..|ls| - 1]);
    }
  }

  /** Delete on the tables: a submitted order of the customer goes, with
      its lines, and every line's quantity goes back to its item. */
  function DeleteSpec(db: Db, customer: UserId, id: int): (Db, OrderResult)
  {
    match SubmittedOrderIndex(db.orders, customer, id)
    case None => (db, NotFound)
    case Some(c) =>
      (db.(items := RestockAll(db.items, LinesOf(db.orderItems, id)),
           orderItems := LinesNotOf(db.orderItems, id),
           orders := RemoveAt(db.orders, c)),
       Done)
  }

  lemma DeleteKeepsValid(db: Db, customer: UserId, id: int)
    requires DbValid(db)
    ensures DbValid(DeleteSpec(db, customer, id).0)
  {
    match SubmittedOrderIndex(db.orders, customer, id)
    case None =>
    case Some(c) =>
      var mine := LinesOf(db.orderItems, id);
      forall k | 0 <= k < |mine| ensures mine[k].quantity >= 1 {
        assert mine[k] in db.orderItems;
      }
      RestockAllGrows(db.items, mine);
      OrdersValidAfterRemove(db.orders, db.nextOrderId, c);
      LinesValidAfterOrderDelete(db.orderItems, db.orders, db.nextItemId, db.nextOrderItemId, c);
  }

  /** Delete gives every reserved unit of the order back to its item's
      stock, so each existing item's stock plus reservations is conserved;
      the order and its lines are gone afterwards. An order that is not a
      submitted order of this customer changes nothing. */
  lemma DeleteRestoresStock(db: Db, customer: UserId, id: int)
    requires UniqueItemIds(db.items) && UniqueOrderIds(db.orders)
    ensures var (db', r) := DeleteSpec(db, customer, id);
            && (r == NotFound || r == Done)
            && (r == NotFound ==> db' == db)
            && (r == Done ==>
                  && (forall x :: StockOf(db'.items, x) ==
                        StockOf(db.items, x) + (if HasItem(db.items, x) then SumQty(LinesOf(db.orderItems, id), OfItem(x)) else 0))
                  && (forall x :: HasItem(db.items, x) ==> Total(db'.items, db'.orderItems, x) == Total(db.items, db.orderItems, x))
                  && LinesOf(db'.orderItems, id) == []
                  && OrderComplete(db'.orders, customer, id) == None)
  {
    match SubmittedOrderIndex(db.orders, customer, id)
    case None =>
    case Some(c) =>
      var db' := DeleteSpec(db, customer, id).0;
      forall x ensures StockOf(db'.items, x) ==
                         StockOf(db.items, x) + (if HasItem(db.items, x) then SumQty(LinesOf(db.orderItems, id), OfItem(x)) else 0)
      {
        RestockAllStock(db.items, LinesOf(db.orderItems, id), x);
      }
      forall x { SumQtySplit(db.orderItems, id, OfItem(x)); }
      NoLinesLeft(db.orderItems, id);
      forall k | 0 <= k < |db'.orders| ensures db'.orders[k].id != id {
        var k' := if k < c then k else k + 1;
        assert db'.orders[k] == db.orders[k'];
      }
  }

  /** Delete acts only on a submitted order of this customer, and then
      removes that order and its lines and no other order or line. */
  lemma DeleteTakesOnlyOwnSubmittedOrder(db: Db, customer: UserId, id: int)
    requires UniqueOrderIds(db.orders)
    ensures var (db', r) := DeleteSpec(db, customer, id);
            && (r == Done <==> exists k :: 0 <= k < |db.orders| && db.orders[k].id == id
                                   && db.orders[k].customerId == customer && db.orders[k].isSubmitted)
            && (r == Done ==>
                  && (forall o :: o in db'.orders <==> o in db.orders && o.id != id)
                  && |db'.orders| == |db.orders| - 1
                  && (forall l :: l in db'.orderItems <==> l in db.orderItems && l.orderId != id))
  {
    match SubmittedOrderIndex(db.orders, customer, id)
    case None =>
    case Some(c) =>
      var orders' := RemoveAt(db.orders, c);
      forall k | 0 <= k < |orders'| ensures orders'[k].id != id {
        assert orders'[k] == db.orders[if k < c then k else k + 1];
      }
      forall o | o in db.orders && o.id != id ensures o in orders' {
        var k :| 0 <= k < |db.orders| && db.orders[k] == o;
        assert orders'[if k < c then k else k - 1] == o;
      }
  }

  /** Delete only takes submitted orders: asked to delete a cart, it
      answers NotFound and changes nothing. */
  lemma DeleteNeverRemovesCart(db: Db, customer: UserId, k: nat)
    requires UniqueOrderIds(db.orders)
    requires k < |db.orders| && IsCart(db.orders[k])
    ensures DeleteSpec(db, customer, db.orders[k].id) == (db, NotFound)
  {
  }

  /** Taking out an order that is not a cart leaves each customer's cart
      where it was, one place earlier when it stood behind that order. */
  lemma CartIndexAfterRemove(orders: seq<Order>, c: nat, customer: UserId)
    requires c < |orders| && !IsCart(orders[c])
    ensures CartIndex(RemoveAt(orders, c), customer)
            == match CartIndex(orders, customer)
               case None => None
               case Some(o) => Some(if o < c then o else o - 1)
  {
    var orders' := RemoveAt(orders, c);
    match CartIndex(orders, customer)
    case None =>
      forall k | 0 <= k < |orders'| ensures !(IsCart(orders'[k]) && orders'[k].customerId == customer) {
        assert orders'[k] == orders[if k < c then k else k + 1];
      }
    case Some(o) =>
      var o' := if o < c then o else o - 1;
      assert orders'[o'] == orders[o];
      forall k | 0 <= k < o' ensures !(IsCart(orders'[k]) && orders'[k].customerId == customer) {
        assert orders'[k] == orders[if k < c then k else k + 1];
      }
  }

  /** Dropping another order's lines leaves the quantity in a cart as it was. */
  lemma CartSumAfterLinesRemoved(lines: seq<OrderItem>, id: int, cartId: int)
    requires cartId != id
    ensures SumQty(LinesNotOf(lines, id), InOrder(cartId)) == SumQty(lines, InOrder(cartId))
  {
    SumQtySplit(lines, id, InOrder(cartId));
    forall k | 0 <= k < |LinesOf(lines, id)| ensures !Selects(InOrder(cartId), LinesOf(lines, id)[k]) {
      assert LinesOf(lines, id)[k] in LinesOf(lines, id);
    }
    SumQtyNoneSelected(LinesOf(lines, id), InOrder(cartId));
  }

  /** Delete leaves every customer's cart, and what is in it, as it was. */
  lemma DeleteKeepsCart(db: Db, customer: UserId, id: int, other: UserId)
    requires UniqueOrderIds(db.orders)
    ensures var db' := DeleteSpec(db, customer, id).0;
            && Cart(db'.orders, other) == Cart(db.orders, other)
            && CartQuantity(db'.orders, db'.orderItems, other) == CartQuantity(db.orders, db.orderItems, other)
  {
    match SubmittedOrderIndex(db.orders, customer, id)
    case None =>
    case Some(c) =>
      CartIndexAfterRemove(db.orders, c, other);
      match CartIndex(db.orders, other)
      case None =>
      case Some(o) =>
        assert db.orders[o].id != id;
        CartSumAfterLinesRemoved(db.orderItems, id, db.orders[o].id);
  }

  /** Delete's loop: each line's quantity goes back to its item, when the
      item still exists. */
  method RestockLines(ctx: FoodContext, ls: seq<OrderItem>)
    modifies ctx
    ensures ctx.State() == old(ctx.State()).(items := RestockAll(old(ctx.items), ls))
  {
    ghost var items0 := ctx.items;
    var i := 0;
    while i < |ls|
      invariant 0 <= i <= |ls|
      invariant ctx.State() == old(ctx.State()).(items := RestockAll(items0, ls[..i]))
    {
      var l := ls[i];
      var item := ItemIndex(ctx.items, l.itemId);
      if item.Some? {
        ctx.items := SetStock(ctx.items, item.value, ctx.items[item.value].quantity + l.quantity);
      }
      assert ls[..i + 1][..i] == ls[..i];
      i := i + 1;
    }
    assert ls[..|ls|] == ls;
  }

  /** Delete: remove a submitted order of the customer and its lines,
      giving each line's quantity back to its item if the item still
      exists. */
  method Delete(ctx: FoodContext, customer: UserId, id: int) returns (r: OrderResult)
    requires ctx.Valid()
    modifies ctx
    ensures (ctx.State(), r) == DeleteSpec(old(ctx.State()), customer, id)
    ensures ctx.Valid()
  {
    DeleteKeepsValid(ctx.State(), customer, id);
    var found := SubmittedOrderIndex(ctx.orders, customer, id);
    if found.None? {
      return NotFound;
    }
    var c := found.value;
    RestockLines(ctx, LinesOf(ctx.orderItems, id));
    ctx.orderItems := LinesNotOf(ctx.orderItems, id);
    ctx.orders := RemoveAt(ctx.orders, c);
    r := Done;
  }
}
