/** The records behind the shop's three tables (Items, Orders, OrderItems),
    their defaults, and the validation rules that model binding applies to
    an Item. */
module Models {

  datatype Option<T> = None | Some(value: T)

  /** Identity user ids are strings. */
  type UserId = string

  /** A DateTime; the model only compares times. */
  type Time = int

  /** int.MaxValue of the source's 32-bit `int`. */
  const IntMax: int := 0x7fff_ffff

  /** The identity roles the controllers test with IsInRole. */
  datatype Role = Customer | Store | Admin

  /** A signed-in user as the identity layer hands it to a controller. */
  datatype Actor = Actor(id: UserId, roles: set<Role>)

  /** Fulfilment state of one order line; a new line carries the enum's
      zero value, Processing. */
  datatype OrderItemStatus = Processing | ReadyForPickup | Completed

  /** A row of Items. `price` is a decimal the core never computes with. */
  datatype Item = Item(
    id: int,
    name: string,
    description: string,
    price: int,
    quantity: int,
    imageUrl: Option<string>,
    storeId: UserId)

  /** A row of Orders. Its lines are the OrderItems rows whose orderId is
      this order's id (the OrderItems navigation). */
  datatype Order = Order(
    id: int,
    createdAt: Time,
    isSubmitted: bool,
    submittedAt: Option<Time>,
    customerId: UserId)

  /** A row of OrderItems: one item and its reserved quantity in one order. */
  datatype OrderItem = OrderItem(
    id: int,
    itemId: int,
    quantity: int,
    orderId: int,
    status: OrderItemStatus)

  /** The fields a store's Create/Edit form posts. There is no store id:
      StoreId and Store are never bound from the form. */
  datatype ItemForm = ItemForm(
    id: int,
    name: string,
    description: string,
    price: int,
    quantity: int,
    imageUrl: Option<string>)

  /** A cart is an order that has not been submitted. */
  predicate IsCart(o: Order)
  {
    !o.isSubmitted
  }

  /** The order AddToCart creates when the customer has no cart. */
  function NewCart(id: int, customer: UserId, now: Time): (o: Order)
    ensures IsCart(o) && o.submittedAt == None
    ensures o.id == id && o.customerId == customer && o.createdAt == now
  {
    Order(id, now, false, None, customer)
  }

  /** The line AddToCart creates for an item not yet in the cart. */
  function NewLine(id: int, itemId: int, orderId: int): (l: OrderItem)
    ensures l.quantity == 1 && l.status == Processing
    ensures l.id == id && l.itemId == itemId && l.orderId == orderId
  {
    OrderItem(id, itemId, 1, orderId, Processing)
  }

  /** White space as char.IsWhiteSpace sees it: the control characters
      U+0009..U+000D and U+0085, and the Unicode space, line and paragraph
      separators (categories Zs, Zl and Zp). */
  predicate IsWhiteSpace(c: char)
  {
    || '\U{0009}' <= c <= '\U{000D}'
    || c == ' ' || c == '\U{0085}' || c == '\U{00A0}' || c == '\U{1680}'
    || '\U{2000}' <= c <= '\U{200A}'
    || c == '\U{2028}' || c == '\U{2029}' || c == '\U{202F}' || c == '\U{205F}' || c == '\U{3000}'
  }

  /** [Required] on a string: neither empty nor only white space. */
  predicate RequiredString(s: string)
  {
    exists i :: 0 <= i < |s| && !IsWhiteSpace(s[i])
  }

  /** [Range(0, int.MaxValue)] on Quantity. */
  predicate QuantityInRange(q: int)
  {
    0 <= q <= IntMax
  }

  /** The validation attributes of Item, applied to the posted fields. */
  predicate FormValid(f: ItemForm)
  {
    RequiredString(f.name) && QuantityInRange(f.quantity)
  }

  /** Model-state validity as Create and Edit see it once the StoreId and
      Store entries are removed: the attribute checks above, and no error
      from the framework's own binding (`bindingErrors`). */
  function ModelStateIsValid(f: ItemForm, bindingErrors: bool): (ok: bool)
    ensures ok ==> f.quantity >= 0 && f.quantity <= IntMax && |f.name| > 0
    // each cause of rejection on its own
    ensures bindingErrors ==> !ok
    ensures f.quantity < 0 || f.quantity > IntMax ==> !ok
    ensures (forall i :: 0 <= i < |f.name| ==> IsWhiteSpace(f.name[i])) ==> !ok
    // and a form with none of them is accepted
    ensures (&& !bindingErrors && 0 <= f.quantity <= IntMax
             && (exists i :: 0 <= i < |f.name| && !IsWhiteSpace(f.name[i]))) ==> ok
  {
    !bindingErrors && FormValid(f)
  }

  /** Two's-complement wrap of a mathematical integer to a 32-bit int. */
  function Wrap32(x: int): (r: int)
    ensures -IntMax - 1 <= r <= IntMax
    ensures (r - x) % 0x1_0000_0000 == 0
  {
    (x + 0x8000_0000) % 0x1_0000_0000 - 0x8000_0000
  }

  /** Reserving `n` units: what the controllers do after checking
      `stock >= n`. */
  function Reserve(stock: int, n: int): (r: int)
    requires 0 <= n <= stock
    ensures 0 <= r <= stock
    ensures Restock(r, n) == stock
  {
    stock - n
  }

  /** Restoring `n` reserved units, as the stock restitution is evidently
      meant to work: without wrapping, so stock stays non-negative. */
  function Restock(stock: int, n: int): (r: int)
    ensures r - n == stock
    ensures stock >= 0 && n >= 0 ==> r >= stock && r >= n
  {
    stock + n
  }

  /** Restoring `n` units as the source writes it (`Quantity += n` on a
      32-bit int in an unchecked context). */
  function Restock32(stock: int, n: int): (r: int)
    ensures -IntMax - 1 <= r <= IntMax
    ensures -IntMax - 1 <= stock + n <= IntMax ==> r == stock + n
  {
    Wrap32(stock + n)
  }

  /** The as-written restitution goes negative from valid inputs: a stock at
      int.MaxValue (allowed by the Range check on Edit) plus one unit. */
  lemma Restock32Overflows()
    ensures QuantityInRange(IntMax)
    ensures Restock32(IntMax, 1) < 0
    ensures Restock(IntMax, 1) > 0
  {
  }

  /** Adding one unit to a cart line, as the increment is evidently meant
      to work: without wrapping, so a line never drops below one. */
  function OneMore(q: int): (r: int)
    ensures r - 1 == q
    ensures q >= 1 ==> r >= 2
  {
    q + 1
  }

  /** Adding one unit as the source writes it (`Quantity += 1` on a 32-bit
      int in an unchecked context). */
  function OneMore32(q: int): (r: int)
    ensures -IntMax - 1 <= r <= IntMax
    ensures -IntMax - 1 <= q + 1 <= IntMax ==> r == q + 1
  {
    Wrap32(q + 1)
  }

  /** The as-written increment breaks "a line holds at least one unit": a
      line at int.MaxValue, which UpdateCartItem accepts when the stock
      covers it, wraps to int.MinValue. */
  lemma OneMore32Overflows()
    ensures QuantityInRange(IntMax)
    ensures OneMore32(IntMax) == -IntMax - 1
    ensures OneMore(IntMax) >= 1
  {
  }
}
