/** BaseController.OnActionExecuting: the cart badge count shown on every
    page to a signed-in customer. */
module BaseController {
  import opened Models
  import opened Tables

  /** The request's user as the authentication layer sees it. */
  datatype Principal = Principal(
    isAuthenticated: bool,
    roles: set<Role>,
    nameIdentifier: Option<UserId>)

  /** Ids of the customer's unsubmitted orders. */
  function CartIds(orders: seq<Order>, customer: UserId): set<int>
  {
    set k | 0 <= k < |orders| && IsCart(orders[k]) && orders[k].customerId == customer :: orders[k].id
  }

  /** The count put in the view bag: the quantities on all lines of the
      user's unsubmitted orders; None when the count is not computed. */
  function CartItemCount(user: Principal, orders: seq<Order>, lines: seq<OrderItem>): (r: Option<int>)
    ensures r.Some? <==> user.isAuthenticated && Customer in user.roles && user.nameIdentifier.Some?
  {
    if user.isAuthenticated && Customer in user.roles then
      match user.nameIdentifier
      case Some(id) => Some(SumQty(lines, InOrders(CartIds(orders, id))))
      case None => None
    else None
  }

  /** With positive line quantities the badge count is never negative. */
  lemma CartItemCountNonNegative(user: Principal, orders: seq<Order>, lines: seq<OrderItem>)
    requires QuantitiesPositive(lines)
    ensures CartItemCount(user, orders, lines).Some? ==> CartItemCount(user, orders, lines).value >= 0
  {
    if user.isAuthenticated && Customer in user.roles && user.nameIdentifier.Some? {
      SumQtyNonNegative(lines, InOrders(CartIds(orders, user.nameIdentifier.value)));
    }
  }

  /** Quantity in the customer's cart, found the way OrderController finds
      it: zero when there is no cart. */
  function CartQuantity(orders: seq<Order>, lines: seq<OrderItem>, customer: UserId): int
  {
    match CartIndex(orders, customer)
    case None => 0
    case Some(k) => SumQty(lines, InOrder(orders[k].id))
  }

  /** Since a customer has at most one cart, the badge count is the
      quantity in that one cart. */
  lemma {:induction false} CartItemCountIsCartQuantity(user: Principal, orders: seq<Order>, lines: seq<OrderItem>)
    requires UniqueOrderIds(orders) && AtMostOneCart(orders)
    requires user.isAuthenticated && Customer in user.roles && user.nameIdentifier.Some?
    ensures CartItemCount(user, orders, lines) == Some(CartQuantity(orders, lines, user.nameIdentifier.value))
  {
    var id := user.nameIdentifier.value;
    match CartIndex(orders, id)
    case None =>
      assert CartIds(orders, id) == {};
      SumQtyNoneSelected(lines, InOrders(CartIds(orders, id)));
    case Some(c) =>
      forall x | x in CartIds(orders, id) ensures x == orders[c].id {
        var k :| 0 <= k < |orders| && IsCart(orders[k]) && orders[k].customerId == id && orders[k].id == x;
        assert k == c;
      }
      assert orders[c].id in CartIds(orders, id);
      SumQtySameSelection(lines, InOrders(CartIds(orders, id)), InOrder(orders[c].id));
  }

  /** Lines that are not on one of the customer's carts (lines of
      submitted orders, lines of other customers) never change the count. */
  lemma CartItemCountIgnoresOtherLines(user: Principal, orders: seq<Order>, lines: seq<OrderItem>, others: seq<OrderItem>)
    requires user.nameIdentifier.Some?
    requires forall k :: 0 <= k < |others| ==> others[k].orderId !in CartIds(orders, user.nameIdentifier.value)
    ensures CartItemCount(user, orders, lines + others) == CartItemCount(user, orders, lines)
  {
    var sel := InOrders(CartIds(orders, user.nameIdentifier.value));
    SumQtyConcat(lines, others, sel);
    SumQtyNoneSelected(others, sel);
  }
}
