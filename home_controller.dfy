/** HomeController.Index: the browse list of items a customer can add. */
module HomeController {
  import opened Models
  import opened Tables

  /** Every item that has stock, whichever store owns it. The list is a
      query result: the tables are not touched. */
  function Index(items: seq<Item>): (r: seq<Item>)
    ensures forall it :: it in r <==> it in items && it.quantity > 0
    ensures forall it :: multiset(r)[it] == if it.quantity > 0 then multiset(items)[it] else 0
  {
    Where(items, (it: Item) => it.quantity > 0)
  }

  /** An item id is listed exactly when the item exists and has stock,
      which is exactly when AddToCart for it gets past its early returns
      (NotFound for a missing item, the silent return for stock <= 0). */
  lemma ListedIffInStock(items: seq<Item>, id: int)
    requires UniqueItemIds(items)
    ensures (exists it :: it in Index(items) && it.id == id) <==> HasItem(items, id) && StockOf(items, id) > 0
  {
    if HasItem(items, id) && StockOf(items, id) > 0 {
      var k := ItemIndex(items, id).value;
      assert items[k] in Index(items);
    }
    if exists it :: it in Index(items) && it.id == id {
      var it :| it in Index(items) && it.id == id;
      var j :| 0 <= j < |items| && items[j] == it;
      var k := ItemIndex(items, id).value;
      assert j == k;
    }
  }
}
