/** The database context: the Items, Orders and OrderItems tables, the
    queries the controllers run on them, the sums of reserved quantities,
    and the invariants every controller action keeps. */
module Tables {
  import opened Models

  // ---------------------------------------------------------------------
  // Queries over a table
  // ---------------------------------------------------------------------

  /** FirstOrDefault: the index of the first row satisfying `p`, if any. */
  function FirstIndex<T>(s: seq<T>, p: T -> bool): (r: Option<nat>)
    ensures r.Some? ==> r.value < |s| && p(s[r.value])
    ensures r.Some? ==> forall k :: 0 <= k < r.value ==> !p(s[k])
    ensures r.None? ==> forall k :: 0 <= k < |s| ==> !p(s[k])
  {
    if s == [] then None
    else if p(s[0]) then Some(0)
    else match FirstIndex(s[1..], p)
         case None => None
         case Some(k) => Some(k + 1)
  }

  /** Where: the rows satisfying `p`, in table order. */
  function Where<T(!new)>(s: seq<T>, p: T -> bool): (r: seq<T>)
    ensures forall x :: x in r <==> x in s && p(x)
    ensures forall x :: multiset(r)[x] == if p(x) then multiset(s)[x] else 0
    ensures |r| <= |s|
  {
    if s == [] then []
    else
      assert s == [s[0]] + s[1..];
      (if p(s[0]) then [s[0]] else []) + Where(s[1..], p)
  }

  lemma SeqAssoc<T>(a: seq<T>, b: seq<T>, c: seq<T>)
    ensures a + (b + c) == (a + b) + c
  {
  }

  /** Where on a table with one more row at the end. */
  lemma {:induction false} WhereAppend<T(!new)>(s: seq<T>, x: T, p: T -> bool)
    ensures Where(s + [x], p) == Where(s, p) + (if p(x) then [x] else [])
  {
    if s != [] {
      var head := if p(s[0]) then [s[0]] else [];
      var tail := if p(x) then [x] else [];
      assert (s + [x])[0] == s[0] && (s + [x])[1..] == s[1..] + [x];
      assert Where(s + [x], p) == head + Where(s[1..] + [x], p);
      WhereAppend(s[1..], x, p);
      SeqAssoc(head, Where(s[1..], p), tail);
    }
  }

  /** Find on Items by primary key. */
  function ItemIndex(items: seq<Item>, id: int): (r: Option<nat>)
    ensures r.Some? ==> r.value < |items| && items[r.value].id == id
    ensures r.None? ==> forall k :: 0 <= k < |items| ==> items[k].id != id
  {
    FirstIndex(items, (it: Item) => it.id == id)
  }

  /** Find on Orders by primary key. */
  function OrderIndex(orders: seq<Order>, id: int): (r: Option<nat>)
    ensures r.Some? ==> r.value < |orders| && orders[r.value].id == id
    ensures r.None? ==> forall k :: 0 <= k < |orders| ==> orders[k].id != id
  {
    FirstIndex(orders, (o: Order) => o.id == id)
  }

  /** The customer's cart: the first unsubmitted order of that customer. */
  function CartIndex(orders: seq<Order>, customer: UserId): (r: Option<nat>)
    ensures r.Some? ==> r.value < |orders| && IsCart(orders[r.value])
                        && orders[r.value].customerId == customer
    ensures r.None? ==> forall k :: 0 <= k < |orders| ==>
                          !(IsCart(orders[k]) && orders[k].customerId == customer)
  {
    FirstIndex(orders, (o: Order) => IsCart(o) && o.customerId == customer)
  }

  /** The line of order `orderId` for item `itemId`, if the order has one. */
  function LineForItem(lines: seq<OrderItem>, orderId: int, itemId: int): (r: Option<nat>)
    ensures r.Some? ==> r.value < |lines| && lines[r.value].orderId == orderId
                        && lines[r.value].itemId == itemId
    ensures r.None? ==> forall k :: 0 <= k < |lines| ==>
                          !(lines[k].orderId == orderId && lines[k].itemId == itemId)
  {
    FirstIndex(lines, (l: OrderItem) => l.orderId == orderId && l.itemId == itemId)
  }

  /** The lines of order `orderId` (the Order.OrderItems navigation). */
  function LinesOf(lines: seq<OrderItem>, orderId: int): (r: seq<OrderItem>)
    ensures forall l :: l in r <==> l in lines && l.orderId == orderId
    ensures |r| <= |lines|
  {
    if lines == [] then []
    else LinesOf(lines[..|lines| - 1], orderId)
         + (if lines[|lines| - 1].orderId == orderId then [lines[|lines| - 1]] else [])
  }

  /** The lines of every order except `orderId` (what RemoveRange leaves). */
  function LinesNotOf(lines: seq<OrderItem>, orderId: int): (r: seq<OrderItem>)
    ensures forall l :: l in r <==> l in lines && l.orderId != orderId
    ensures |r| <= |lines|
  {
    if lines == [] then []
    else LinesNotOf(lines[..|lines| - 1], orderId)
         + (if lines[|lines| - 1].orderId != orderId then [lines[|lines| - 1]] else [])
  }

  /** Once an order's lines are removed, the order has none left. */
  lemma {:induction false} NoLinesLeft(lines: seq<OrderItem>, orderId: int)
    ensures LinesOf(LinesNotOf(lines, orderId), orderId) == []
  {
    if lines != [] {
      var init := lines[..|lines| - 1];
      var last := lines[|lines| - 1];
      var rest := LinesNotOf(init, orderId);
      NoLinesLeft(init, orderId);
      if last.orderId != orderId {
        assert LinesNotOf(lines, orderId) == rest + [last];
        assert (rest + [last])[..|rest|] == rest;
      } else {
        assert LinesNotOf(lines, orderId) == rest + [] == rest;
      }
    }
  }

  /** The table without its row at index `k`. */
  function RemoveAt<T>(s: seq<T>, k: nat): (r: seq<T>)
    requires k < |s|
    ensures |r| == |s| - 1
    ensures forall i :: 0 <= i < k ==> r[i] == s[i]
    ensures forall i :: k <= i < |r| ==> r[i] == s[i + 1]
  {
    s[..k] + s[k + 1..]
  }

  /** FirstIndex gives the same answer on two sequences whose elements two
      predicates judge alike, position by position. */
  lemma {:induction false} FirstIndexAgrees<T>(s: seq<T>, t: seq<T>, p: T -> bool, q: T -> bool)
    requires |s| == |t|
    requires forall j :: 0 <= j < |s| ==> p(s[j]) == q(t[j])
    ensures FirstIndex(s, p) == FirstIndex(t, q)
  {
    if s != [] {
      FirstIndexAgrees(s[1..], t[1..], p, q);
    }
  }

  // ---------------------------------------------------------------------
  // Sums of line quantities
  // ---------------------------------------------------------------------

  /** Which lines a quantity sum runs over. */
  datatype Selector =
    | OfItem(itemId: int)          // lines referencing one item
    | InOrder(orderId: int)        // lines of one order
    | InOrders(orderIds: set<int>) // lines of any of several orders

  predicate Selects(sel: Selector, l: OrderItem)
  {
    match sel
    case OfItem(i) => l.itemId == i
    case InOrder(o) => l.orderId == o
    case InOrders(os) => l.orderId in os
  }

  function Weight(sel: Selector, l: OrderItem): int
  {
    if Selects(sel, l) then l.quantity else 0
  }

  /** Sum of Quantity over the selected lines. */
  function SumQty(lines: seq<OrderItem>, sel: Selector): int
  {
    if lines == [] then 0
    else SumQty(lines[..|lines| - 1], sel) + Weight(sel, lines[|lines| - 1])
  }

  predicate QuantitiesPositive(lines: seq<OrderItem>)
  {
    forall k :: 0 <= k < |lines| ==> lines[k].quantity >= 1
  }

  lemma {:induction false} SumQtyAppend(lines: seq<OrderItem>, l: OrderItem, sel: Selector)
    ensures SumQty(lines + [l], sel) == SumQty(lines, sel) + Weight(sel, l)
  {
    assert (lines + [l])[..|lines|] == lines;
  }

  lemma {:induction false} SumQtyConcat(a: seq<OrderItem>, b: seq<OrderItem>, sel: Selector)
    ensures SumQty(a + b, sel) == SumQty(a, sel) + SumQty(b, sel)
    decreases |b|
  {
    if b == [] {
      assert a + b == a;
    } else {
      var b' := b[..|b| - 1];
      var last := b[|b| - 1];
      assert a + b == (a + b') + [last];
      assert b == b' + [last];
      SumQtyAppend(a + b', last, sel);
      SumQtyAppend(b', last, sel);
      SumQtyConcat(a, b', sel);
    }
  }

  /** The sum after one line is replaced. */
  lemma SumQtyUpdate(lines: seq<OrderItem>, k: nat, l: OrderItem, sel: Selector)
    requires k < |lines|
    ensures SumQty(lines[k := l], sel) == SumQty(lines, sel) - Weight(sel, lines[k]) + Weight(sel, l)
  {
    assert lines == lines[..k] + [lines[k]] + lines[k + 1..];
    assert lines[k := l] == lines[..k] + [l] + lines[k + 1..];
    SumQtyConcat(lines[..k] + [lines[k]], lines[k + 1..], sel);
    SumQtyConcat(lines[..k] + [l], lines[k + 1..], sel);
    SumQtyAppend(lines[..k], lines[k], sel);
    SumQtyAppend(lines[..k], l, sel);
  }

  /** The sum after one line is deleted. */
  lemma SumQtyRemove(lines: seq<OrderItem>, k: nat, sel: Selector)
    requires k < |lines|
    ensures SumQty(RemoveAt(lines, k), sel) == SumQty(lines, sel) - Weight(sel, lines[k])
  {
    assert lines == lines[..k] + [lines[k]] + lines[k + 1..];
    SumQtyConcat(lines[..k] + [lines[k]], lines[k + 1..], sel);
    SumQtyConcat(lines[..k], lines[k + 1..], sel);
    SumQtyAppend(lines[..k], lines[k], sel);
  }

  /** Two selectors that pick the same lines give the same sum. */
  lemma {:induction false} SumQtySameSelection(lines: seq<OrderItem>, s1: Selector, s2: Selector)
    requires forall k :: 0 <= k < |lines| ==> (Selects(s1, lines[k]) <==> Selects(s2, lines[k]))
    ensures SumQty(lines, s1) == SumQty(lines, s2)
  {
    if lines != [] {
      SumQtySameSelection(lines[..|lines| - 1], s1, s2);
    }
  }

  /** A sum over lines none of which is selected is zero. */
  lemma {:induction false} SumQtyNoneSelected(lines: seq<OrderItem>, sel: Selector)
    requires forall k :: 0 <= k < |lines| ==> !Selects(sel, lines[k])
    ensures SumQty(lines, sel) == 0
  {
    if lines != [] {
      SumQtyNoneSelected(lines[..|lines| - 1], sel);
    }
  }

  /** With positive quantities a sum is at least the number of selected
      lines, so never negative. */
  lemma {:induction false} SumQtyNonNegative(lines: seq<OrderItem>, sel: Selector)
    requires QuantitiesPositive(lines)
    ensures SumQty(lines, sel) >= 0
  {
    if lines != [] {
      SumQtyNonNegative(lines[..|lines| - 1], sel);
    }
  }

  /** Splitting the table into one order's lines and the rest splits every
      sum. */
  lemma {:induction false} SumQtySplit(lines: seq<OrderItem>, orderId: int, sel: Selector)
    ensures SumQty(lines, sel) == SumQty(LinesOf(lines, orderId), sel) + SumQty(LinesNotOf(lines, orderId), sel)
  {
    if lines != [] {
      var init := lines[..|lines| - 1];
      var last := lines[|lines| - 1];
      var a, b := LinesOf(init, orderId), LinesNotOf(init, orderId);
      SumQtySplit(init, orderId, sel);
      assert SumQty(lines, sel) == SumQty(init, sel) + Weight(sel, last);
      if last.orderId == orderId {
        assert LinesOf(lines, orderId) == a + [last];
        assert LinesNotOf(lines, orderId) == b + [] == b;
        SumQtyAppend(a, last, sel);
      } else {
        assert LinesOf(lines, orderId) == a + [] == a;
        assert LinesNotOf(lines, orderId) == b + [last];
        SumQtyAppend(b, last, sel);
      }
    }
  }

  // ---------------------------------------------------------------------
  // Stock and its conservation
  // ---------------------------------------------------------------------

  predicate HasItem(items: seq<Item>, id: int)
  {
    ItemIndex(items, id).Some?
  }

  /** Stock of item `id` (zero for an item that is not in the table). */
  function StockOf(items: seq<Item>, id: int): int
  {
    match ItemIndex(items, id)
    case Some(k) => items[k].quantity
    case None => 0
  }

  /** Stock plus everything reserved for item `id` by order lines: the
      quantity every cart and order operation conserves. */
  function Total(items: seq<Item>, lines: seq<OrderItem>, id: int): int
  {
    StockOf(items, id) + SumQty(lines, OfItem(id))
  }

  /** The Items table with the stock of row `k` set to `q`. */
  function SetStock(items: seq<Item>, k: nat, q: int): (r: seq<Item>)
    requires k < |items|
    ensures |r| == |items| && r[k].quantity == q
    ensures r[k] == items[k].(quantity := q)
    ensures forall i :: 0 <= i < |items| ==> r[i].id == items[i].id && r[i].storeId == items[i].storeId
    ensures forall i :: 0 <= i < |items| && i != k ==> r[i] == items[i]
  {
    items[k := items[k].(quantity := q)]
  }

  /** Changing one item's stock changes StockOf for that item only. */
  lemma StockAfterSet(items: seq<Item>, k: nat, q: int, id: int)
    requires UniqueItemIds(items) && k < |items|
    ensures StockOf(SetStock(items, k, q), id) == if id == items[k].id then q else StockOf(items, id)
  {
    var items' := SetStock(items, k, q);
    FirstIndexAgrees(items', items, (it: Item) => it.id == id, (it: Item) => it.id == id);
    assert ItemIndex(items', id) == ItemIndex(items, id);
  }

  /** Moving `d` units of item `items[k]` from its stock (which becomes
      `q`) onto its lines (a negative `d` gives them back) leaves every
      item's total unchanged. */
  lemma TotalsAfterMove(items: seq<Item>, lines: seq<OrderItem>, lines': seq<OrderItem>, k: nat, d: int, q: int)
    requires UniqueItemIds(items) && k < |items| && q == items[k].quantity - d
    requires forall id :: SumQty(lines', OfItem(id)) == SumQty(lines, OfItem(id)) + (if id == items[k].id then d else 0)
    ensures forall id :: Total(SetStock(items, k, q), lines', id) == Total(items, lines, id)
  {
    forall id
      ensures Total(SetStock(items, k, q), lines', id) == Total(items, lines, id)
    {
      StockAfterSet(items, k, q, id);
    }
  }

  /** After one row's stock changes, lookups by id find the same row. */
  lemma ItemIndexAfterSet(items: seq<Item>, k: nat, q: int, id: int)
    requires k < |items|
    ensures ItemIndex(SetStock(items, k, q), id) == ItemIndex(items, id)
  {
    FirstIndexAgrees(SetStock(items, k, q), items, (it: Item) => it.id == id, (it: Item) => it.id == id);
  }

  /** After a row is appended, lookups by id find the old rows first. */
  lemma ItemIndexAfterAppend(items: seq<Item>, it: Item, id: int)
    ensures ItemIndex(items + [it], id) ==
              if ItemIndex(items, id).Some? then ItemIndex(items, id)
              else if it.id == id then Some(|items|) else None
  {
    var items' := items + [it];
    var r := ItemIndex(items', id);
    match ItemIndex(items, id)
    case Some(i) =>
      assert items'[i] == items[i];
      assert r.Some? && r.value <= i;
      assert items'[r.value] == items[r.value];
    case None =>
      assert items'[|items|] == it;
  }

  // ---------------------------------------------------------------------
  // Invariants of the three tables
  // ---------------------------------------------------------------------

  /** Id is the primary key of Items. */
  predicate UniqueItemIds(items: seq<Item>)
  {
    forall i, j :: 0 <= i < j < |items| ==> items[i].id != items[j].id
  }

  /** Id is the primary key of Orders. */
  predicate UniqueOrderIds(orders: seq<Order>)
  {
    forall i, j :: 0 <= i < j < |orders| ==> orders[i].id != orders[j].id
  }

  predicate ItemsValid(items: seq<Item>, nextItemId: int)
  {
    && UniqueItemIds(items)
    && (forall k :: 0 <= k < |items| ==> items[k].id < nextItemId)
    // Item.Quantity, the stock, is never negative
    && (forall k :: 0 <= k < |items| ==> items[k].quantity >= 0)
  }

  /** Each customer has at most one cart. */
  predicate AtMostOneCart(orders: seq<Order>)
  {
    forall i, j :: 0 <= i < j < |orders| && IsCart(orders[i]) && IsCart(orders[j]) ==>
      orders[i].customerId != orders[j].customerId
  }

  predicate OrdersValid(orders: seq<Order>, nextOrderId: int)
  {
    && UniqueOrderIds(orders)
    && (forall k :: 0 <= k < |orders| ==> orders[k].id < nextOrderId)
    && AtMostOneCart(orders)
    // SubmittedAt is set exactly when the order is submitted
    && (forall k :: 0 <= k < |orders| ==> (orders[k].submittedAt.Some? <==> orders[k].isSubmitted))
  }

  predicate LinesValid(lines: seq<OrderItem>, orders: seq<Order>, nextItemId: int, nextLineId: int)
  {
    && LineKeysUnique(lines)
    && (forall k :: 0 <= k < |lines| ==> lines[k].id < nextLineId)
    && QuantitiesPositive(lines)
    // a line names an item that was once created, and an order that exists
    // (the Restrict rule on OrderItem.Order)
    && (forall k :: 0 <= k < |lines| ==> lines[k].itemId < nextItemId)
    && (forall k :: 0 <= k < |lines| ==> OrderIndex(orders, lines[k].orderId).Some?)
  }

  /** Line ids are unique, and an order holds at most one line per item:
      AddToCart raises the existing line instead of adding a second one. */
  predicate LineKeysUnique(lines: seq<OrderItem>)
  {
    forall i, j :: 0 <= i < j < |lines| ==>
      lines[i].id != lines[j].id && (lines[i].orderId == lines[j].orderId ==> lines[i].itemId != lines[j].itemId)
  }

  /** Removing one order's lines keeps the remaining lines' keys unique. */
  lemma {:induction false} LinesNotOfKeysUnique(lines: seq<OrderItem>, orderId: int)
    requires LineKeysUnique(lines)
    ensures LineKeysUnique(LinesNotOf(lines, orderId))
  {
    if lines != [] {
      var init := lines[..|lines| - 1];
      var last := lines[|lines| - 1];
      assert LineKeysUnique(init);
      LinesNotOfKeysUnique(init, orderId);
      var rest := LinesNotOf(init, orderId);
      if last.orderId != orderId {
        assert LinesNotOf(lines, orderId) == rest + [last];
        forall i | 0 <= i < |rest|
          ensures rest[i].id != last.id && (rest[i].orderId == last.orderId ==> rest[i].itemId != last.itemId)
        {
          assert rest[i] in init;
          var i' :| 0 <= i' < |init| && init[i'] == rest[i];
          assert lines[i'] == rest[i];
        }
      } else {
        assert LinesNotOf(lines, orderId) == rest + [] == rest;
      }
    }
  }

  /** An order present at index `k` is found by its id. */
  lemma OrderIndexFinds(orders: seq<Order>, k: nat)
    requires k < |orders|
    ensures OrderIndex(orders, orders[k].id).Some?
  {
  }

  // ---------------------------------------------------------------------
  // How single-row changes keep the invariants
  // ---------------------------------------------------------------------

  lemma ItemsValidAfterSet(items: seq<Item>, nextItemId: int, k: nat, q: int)
    requires ItemsValid(items, nextItemId) && k < |items| && q >= 0
    ensures ItemsValid(SetStock(items, k, q), nextItemId)
  {
  }

  lemma OrdersValidAfterNewCart(orders: seq<Order>, nextOrderId: int, customer: UserId, now: Time)
    requires OrdersValid(orders, nextOrderId) && CartIndex(orders, customer).None?
    ensures OrdersValid(orders + [NewCart(nextOrderId, customer, now)], nextOrderId + 1)
  {
    var orders' := orders + [NewCart(nextOrderId, customer, now)];
    forall i, j | 0 <= i < j < |orders'| && IsCart(orders'[i]) && IsCart(orders'[j])
      ensures orders'[i].customerId != orders'[j].customerId
    {
      if j == |orders| {
        assert orders'[i] == orders[i];
      }
    }
  }

  /** A cart appended for a customer who had none is that customer's cart. */
  lemma CartIndexAfterNewCart(orders: seq<Order>, nextOrderId: int, customer: UserId, now: Time)
    requires CartIndex(orders, customer).None?
    ensures CartIndex(orders + [NewCart(nextOrderId, customer, now)], customer) == Some(|orders|)
  {
    var orders' := orders + [NewCart(nextOrderId, customer, now)];
    assert IsCart(orders'[|orders|]) && orders'[|orders|].customerId == customer;
    assert forall k :: 0 <= k < |orders| ==> orders'[k] == orders[k];
  }

  lemma LinesValidAfterSet(lines: seq<OrderItem>, orders: seq<Order>, nextItemId: int, nextLineId: int, j: nat, q: int)
    requires LinesValid(lines, orders, nextItemId, nextLineId) && j < |lines| && q >= 1
    ensures LinesValid(lines[j := lines[j].(quantity := q)], orders, nextItemId, nextLineId)
  {
  }

  lemma LinesValidAfterAppend(lines: seq<OrderItem>, orders: seq<Order>, nextItemId: int, nextLineId: int, l: OrderItem)
    requires LinesValid(lines, orders, nextItemId, nextLineId)
    requires l.id == nextLineId && l.quantity >= 1 && l.itemId < nextItemId
    requires OrderIndex(orders, l.orderId).Some?
    requires LineForItem(lines, l.orderId, l.itemId).None?
    ensures LinesValid(lines + [l], orders, nextItemId, nextLineId + 1)
  {
    var lines' := lines + [l];
    assert forall k :: 0 <= k < |lines| ==> lines'[k] == lines[k];
  }

  lemma LinesValidAfterRemove(lines: seq<OrderItem>, orders: seq<Order>, nextItemId: int, nextLineId: int, j: nat)
    requires LinesValid(lines, orders, nextItemId, nextLineId) && j < |lines|
    ensures LinesValid(RemoveAt(lines, j), orders, nextItemId, nextLineId)
  {
    var lines' := RemoveAt(lines, j);
    forall a, b | 0 <= a < b < |lines'|
      ensures lines'[a].id != lines'[b].id
              && (lines'[a].orderId == lines'[b].orderId ==> lines'[a].itemId != lines'[b].itemId)
    {
      var a' := if a < j then a else a + 1;
      var b' := if b < j then b else b + 1;
      assert lines'[a] == lines[a'] && lines'[b] == lines[b'];
    }
  }

  /** Checkout's change: the order is submitted, at `now`. */
  function Submitted(o: Order, now: Time): (o': Order)
    ensures o'.isSubmitted && o'.submittedAt == Some(now) && !IsCart(o')
    ensures o'.id == o.id && o'.customerId == o.customerId && o'.createdAt == o.createdAt
  {
    o.(isSubmitted := true, submittedAt := Some(now))
  }

  lemma OrdersValidAfterSubmit(orders: seq<Order>, nextOrderId: int, c: nat, now: Time)
    requires OrdersValid(orders, nextOrderId) && c < |orders|
    ensures OrdersValid(orders[c := Submitted(orders[c], now)], nextOrderId)
  {
  }

  /** Rewriting an order's other columns leaves every lookup by id as it was. */
  lemma OrderIndexAfterSet(orders: seq<Order>, c: nat, o: Order, id: int)
    requires c < |orders| && o.id == orders[c].id
    ensures OrderIndex(orders[c := o], id) == OrderIndex(orders, id)
  {
    FirstIndexAgrees(orders[c := o], orders, (x: Order) => x.id == id, (x: Order) => x.id == id);
  }

  lemma LinesValidAfterOrderSet(lines: seq<OrderItem>, orders: seq<Order>, nextItemId: int, nextLineId: int, c: nat, o: Order)
    requires LinesValid(lines, orders, nextItemId, nextLineId)
    requires c < |orders| && o.id == orders[c].id
    ensures LinesValid(lines, orders[c := o], nextItemId, nextLineId)
  {
    forall k | 0 <= k < |lines| ensures OrderIndex(orders[c := o], lines[k].orderId).Some? {
      OrderIndexAfterSet(orders, c, o, lines[k].orderId);
    }
  }

  lemma OrdersValidAfterRemove(orders: seq<Order>, nextOrderId: int, c: nat)
    requires OrdersValid(orders, nextOrderId) && c < |orders|
    ensures OrdersValid(RemoveAt(orders, c), nextOrderId)
  {
    var orders' := RemoveAt(orders, c);
    forall a, b | 0 <= a < b < |orders'|
      ensures orders'[a].id != orders'[b].id
              && (IsCart(orders'[a]) && IsCart(orders'[b]) ==> orders'[a].customerId != orders'[b].customerId)
    {
      var a' := if a < c then a else a + 1;
      var b' := if b < c then b else b + 1;
      assert orders'[a] == orders[a'] && orders'[b] == orders[b'];
    }
  }

  /** Deleting an order together with all its lines leaves no line
      pointing at a missing order. */
  lemma LinesValidAfterOrderDelete(lines: seq<OrderItem>, orders: seq<Order>, nextItemId: int, nextLineId: int, c: nat)
    requires LinesValid(lines, orders, nextItemId, nextLineId)
    requires UniqueOrderIds(orders) && c < |orders|
    ensures LinesValid(LinesNotOf(lines, orders[c].id), RemoveAt(orders, c), nextItemId, nextLineId)
  {
    var rest := LinesNotOf(lines, orders[c].id);
    var orders' := RemoveAt(orders, c);
    LinesNotOfKeysUnique(lines, orders[c].id);
    forall k | 0 <= k < |rest|
      ensures rest[k].id < nextLineId && rest[k].quantity >= 1 && rest[k].itemId < nextItemId
      ensures OrderIndex(orders', rest[k].orderId).Some?
    {
      assert rest[k] in lines;
      var i :| 0 <= i < |lines| && lines[i] == rest[k];
      var o := OrderIndex(orders, lines[i].orderId).value;
      assert o != c;
      var o' := if o < c then o else o - 1;
      assert orders'[o'] == orders[o];
      OrderIndexFinds(orders', o');
    }
  }

  /** Appending an order keeps every line's order reference. */
  lemma LinesValidAfterNewOrder(lines: seq<OrderItem>, orders: seq<Order>, nextItemId: int, nextLineId: int, o: Order)
    requires LinesValid(lines, orders, nextItemId, nextLineId)
    ensures LinesValid(lines, orders + [o], nextItemId, nextLineId)
  {
    var orders' := orders + [o];
    forall k | 0 <= k < |lines| ensures OrderIndex(orders', lines[k].orderId).Some? {
      var i := OrderIndex(orders, lines[k].orderId).value;
      assert orders'[i] == orders[i];
      OrderIndexFinds(orders', i);
    }
  }

  // ---------------------------------------------------------------------
  // The context
  // ---------------------------------------------------------------------

  /** The three tables and the identity columns' next values, as one value. */
  datatype Db = Db(
    items: seq<Item>,
    orders: seq<Order>,
    orderItems: seq<OrderItem>,
    nextItemId: int,
    nextOrderId: int,
    nextOrderItemId: int)

  /** The invariants every controller action keeps. */
  predicate DbValid(db: Db)
  {
    && ItemsValid(db.items, db.nextItemId)
    && OrdersValid(db.orders, db.nextOrderId)
    && LinesValid(db.orderItems, db.orders, db.nextItemId, db.nextOrderItemId)
  }

  /** The database context the controllers share. The `next…Id` fields are
      the identity columns' next values. */
  class FoodContext {
    var items: seq<Item>
    var orders: seq<Order>
    var orderItems: seq<OrderItem>
    var nextItemId: int
    var nextOrderId: int
    var nextOrderItemId: int

    /** The tables as a value. */
    function State(): Db
      reads this
    {
      Db(items, orders, orderItems, nextItemId, nextOrderId, nextOrderItemId)
    }

    ghost predicate Valid()
      reads this
    {
      DbValid(State())
    }

    /** An empty database. */
    constructor ()
      ensures Valid()
      ensures State() == Db([], [], [], 1, 1, 1)
    {
      items, orders, orderItems := [], [], [];
      nextItemId, nextOrderId, nextOrderItemId := 1, 1, 1;
    }
  }
}
