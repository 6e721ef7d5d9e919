/** AccountController: the account page's order list, which depends on the
    actor's role, and the store's per-line status update. */
module AccountController {
  import opened Models
  import opened Tables
  import opened Ordering

  /** The store that owns the item a line references; None when the item
      row is gone (the Include finds no Item). */
  function LineStore(items: seq<Item>, l: OrderItem): Option<UserId>
  {
    match ItemIndex(items, l.itemId)
    case Some(k) => Some(items[k].storeId)
    case None => None
  }

  /** Some line of order `o` is for an item of `store`. */
  predicate HasStoreLine(o: Order, lines: seq<OrderItem>, items: seq<Item>, store: UserId)
  {
    exists k :: 0 <= k < |lines| && lines[k].orderId == o.id && LineStore(items, lines[k]) == Some(store)
  }

  /** Some line of order `o` is for an item of `store` and not Completed. */
  predicate HasOpenStoreLine(o: Order, lines: seq<OrderItem>, items: seq<Item>, store: UserId)
  {
    exists k :: 0 <= k < |lines| && lines[k].orderId == o.id && LineStore(items, lines[k]) == Some(store)
                && lines[k].status != Completed
  }

  /** The Customer view: the customer's submitted orders, newest
      SubmittedAt first. OrderController.Index runs the same query. */
  function CustomerOrders(orders: seq<Order>, customer: UserId): (r: seq<Order>)
    ensures forall o :: o in r <==> o in orders && o.customerId == customer && o.isSubmitted
    ensures forall o :: multiset(r)[o] ==
              if o.customerId == customer && o.isSubmitted then multiset(orders)[o] else 0
    ensures NewestFirst(r, BySubmittedAt)
  {
    var mine := Where(orders, (o: Order) => o.customerId == customer && o.isSubmitted);
    var r := SortNewestFirst(mine, BySubmittedAt);
    assert forall o :: o in r <==> o in multiset(r);
    r
  }

  /** The Store view: submitted orders in which the store still has an
      open line, newest CreatedAt first. The query's first condition (some
      line of this store) is implied by its last, so it filters nothing. */
  function StoreOrders(orders: seq<Order>, lines: seq<OrderItem>, items: seq<Item>, store: UserId): (r: seq<Order>)
    ensures forall o :: o in r <==> o in orders && o.isSubmitted && HasOpenStoreLine(o, lines, items, store)
    ensures forall o :: multiset(r)[o] ==
              if o.isSubmitted && HasOpenStoreLine(o, lines, items, store) then multiset(orders)[o] else 0
    ensures forall o :: o in r ==> HasStoreLine(o, lines, items, store)
    ensures NewestFirst(r, ByCreatedAt)
  {
    var open := Where(orders, (o: Order) =>
      HasStoreLine(o, lines, items, store) && o.isSubmitted && HasOpenStoreLine(o, lines, items, store));
    var r := SortNewestFirst(open, ByCreatedAt);
    assert forall o :: o in r <==> o in multiset(r);
    r
  }

  /** Index: the Customer role is tested first, then Store; anyone else
      gets an empty list. Whatever the role, only submitted orders show. */
  function Index(actor: Actor, orders: seq<Order>, lines: seq<OrderItem>, items: seq<Item>): (r: seq<Order>)
    ensures forall o :: o in r ==> o in orders && o.isSubmitted
    ensures Customer in actor.roles ==> forall o :: o in r ==> o.customerId == actor.id
    ensures Customer in actor.roles ==> r == CustomerOrders(orders, actor.id)
    ensures Customer !in actor.roles && Store in actor.roles ==> r == StoreOrders(orders, lines, items, actor.id)
    ensures Customer !in actor.roles && Store !in actor.roles ==> r == []
  {
    if Customer in actor.roles then CustomerOrders(orders, actor.id)
    else if Store in actor.roles then StoreOrders(orders, lines, items, actor.id)
    else []
  }

  /** The line a store may update: this id, an item of this store, and a
      submitted order. The line's current status plays no part. */
  predicate StoreCanUpdate(orders: seq<Order>, items: seq<Item>, store: UserId, lineId: int, l: OrderItem)
  {
    && l.id == lineId
    && LineStore(items, l) == Some(store)
    && match OrderIndex(orders, l.orderId)
       case Some(k) => orders[k].isSubmitted
       case None => false
  }

  function FindStoreLine(orders: seq<Order>, lines: seq<OrderItem>, items: seq<Item>, store: UserId, lineId: int): (r: Option<nat>)
    ensures r.Some? ==> r.value < |lines| && StoreCanUpdate(orders, items, store, lineId, lines[r.value])
    ensures r.None? ==> forall k :: 0 <= k < |lines| ==> !StoreCanUpdate(orders, items, store, lineId, lines[k])
  {
    FirstIndex(lines, (l: OrderItem) => StoreCanUpdate(orders, items, store, lineId, l))
  }

  /** Setting a line's status never changes whether the store may update
      it again: any sequence of statuses, regressions included, goes
      through. */
  lemma StatusDoesNotGateUpdate(orders: seq<Order>, lines: seq<OrderItem>, items: seq<Item>,
                                store: UserId, lineId: int, k: nat, status: OrderItemStatus)
    requires k < |lines|
    ensures FindStoreLine(orders, lines[k := lines[k].(status := status)], items, store, lineId)
            == FindStoreLine(orders, lines, items, store, lineId)
  {
    var lines' := lines[k := lines[k].(status := status)];
    forall j | 0 <= j < |lines|
      ensures StoreCanUpdate(orders, items, store, lineId, lines'[j]) == StoreCanUpdate(orders, items, store, lineId, lines[j])
    {
      assert LineStore(items, lines'[j]) == LineStore(items, lines[j]);
    }
    var p := (l: OrderItem) => StoreCanUpdate(orders, items, store, lineId, l);
    FirstIndexAgrees(lines', lines, p, p);
  }

  datatype StatusResult = Forbid | NotFound | StatusUpdated

  /** UpdateOrderItemStatus: a Store actor sets the status of one line of a
      submitted order for one of its own items. Nothing else changes. */
  method UpdateOrderItemStatus(ctx: FoodContext, actor: Actor, lineId: int, status: OrderItemStatus)
    returns (r: StatusResult)
    requires ctx.Valid()
    modifies ctx
    ensures ctx.Valid()
    ensures r == Forbid <==> Store !in actor.roles
    ensures r == NotFound <==>
              Store in actor.roles
              && FindStoreLine(old(ctx.orders), old(ctx.orderItems), old(ctx.items), actor.id, lineId).None?
    ensures r != StatusUpdated ==> unchanged(ctx)
    ensures r == StatusUpdated ==>
              var k := FindStoreLine(old(ctx.orders), old(ctx.orderItems), old(ctx.items), actor.id, lineId).value;
              && ctx.orderItems == old(ctx.orderItems)[k := old(ctx.orderItems)[k].(status := status)]
              && ctx.orderItems[k].status == status
              && ctx.items == old(ctx.items) && ctx.orders == old(ctx.orders)
              && ctx.nextItemId == old(ctx.nextItemId) && ctx.nextOrderId == old(ctx.nextOrderId)
              && ctx.nextOrderItemId == old(ctx.nextOrderItemId)
  {
    if Store !in actor.roles {
      return Forbid;
    }
    var found := FindStoreLine(ctx.orders, ctx.orderItems, ctx.items, actor.id, lineId);
    if found.None? {
      return NotFound;
    }
    var k := found.value;
    ctx.orderItems := ctx.orderItems[k := ctx.orderItems[k].(status := status)];
    r := StatusUpdated;
  }
}
