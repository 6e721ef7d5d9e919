/** StoreController: a store's own items. Every action is scoped to the
    items whose StoreId is the signed-in store; Create, Edit and
    DeleteConfirmed are the only writers of the Items table. The image
    file itself (saving, deleting, the generated name) is outside the
    model: an upload is the generated file name, or None when no
    non-empty file was posted. */
module StoreController {
  import opened Models
  import opened Tables

  datatype StoreResult =
    | NotFound
    | Redisplay   // the form is shown again with its validation errors
    | Saved       // the change is saved; back to the store's list

  /** Where uploaded images are served from. */
  const UploadPrefix: string := "/uploads/items/"

  // ---------------------------------------------------------------------
  // Lookups
  // ---------------------------------------------------------------------

  /** Index (and MyStore): the store's own items, in table order. */
  function Index(items: seq<Item>, store: UserId): (r: seq<Item>)
    ensures forall it :: it in r <==> it in items && it.storeId == store
    ensures forall it :: multiset(r)[it] == if it.storeId == store then multiset(items)[it] else 0
  {
    Where(items, (it: Item) => it.storeId == store)
  }

  /** The query GET Edit, GET Delete, POST Edit and DeleteConfirmed share:
      this id, owned by this store. */
  function OwnedItemIndex(items: seq<Item>, store: UserId, id: int): (r: Option<nat>)
    ensures r.Some? ==> r.value < |items| && items[r.value].id == id && items[r.value].storeId == store
    ensures r.None? ==> forall k :: 0 <= k < |items| ==> !(items[k].id == id && items[k].storeId == store)
  {
    FirstIndex(items, (it: Item) => it.id == id && it.storeId == store)
  }

  /** GET Edit and GET Delete: the item, or None for NotFound. */
  function OwnedItem(items: seq<Item>, store: UserId, id: int): (r: Option<Item>)
  {
    match OwnedItemIndex(items, store, id)
    case Some(k) => Some(items[k])
    case None => None
  }

  /** Since ids are unique, the owned lookup is the lookup by id followed
      by an ownership test: another store's item is NotFound, never shown. */
  lemma OwnedItemIsOwnedLookup(items: seq<Item>, store: UserId, id: int)
    requires UniqueItemIds(items)
    ensures OwnedItem(items, store, id) ==
              match ItemIndex(items, id)
              case Some(k) => if items[k].storeId == store then Some(items[k]) else None
              case None => None
  {
    match ItemIndex(items, id)
    case Some(k) =>
      if items[k].storeId == store {
        assert OwnedItemIndex(items, store, id) == Some(k);
      }
    case None =>
  }

  // ---------------------------------------------------------------------
  // Image URLs
  // ---------------------------------------------------------------------

  /** string.IsNullOrEmpty */
  predicate IsNullOrEmpty(s: Option<string>)
  {
    s.None? || s.value == ""
  }

  /** Create: ImageUrl is not bound from the form, so it is the uploaded
      file's URL or null. */
  function CreatedImageUrl(upload: Option<string>): (r: Option<string>)
    ensures r.Some? <==> upload.Some?
    ensures r.Some? ==> r.value == UploadPrefix + upload.value
  {
    match upload
    case Some(name) => Some(UploadPrefix + name)
    case None => None
  }

  /** Edit: clear the image when asked to and there is one, else use a
      new upload, else keep the stored URL (the posted one is ignored). */
  function EditedImageUrl(original: Option<string>, deleteImage: bool, upload: Option<string>): (r: Option<string>)
    // the result is one of: no image, the stored image, the new upload
    ensures r == None || r == original || (upload.Some? && r == Some(UploadPrefix + upload.value))
    // an upload is never used together with DeleteImage
    ensures deleteImage ==> r == None || r == original
    ensures r == None && original.Some? ==> deleteImage
  {
    if deleteImage && !IsNullOrEmpty(original) then None
    else if !deleteImage && upload.Some? then Some(UploadPrefix + upload.value)
    else original
  }

  /** The three cases of the image rule, each from its own condition. This
      is the rule Edit promises, stated case by case for callers; it is not
      a property independent of EditedImageUrl. */
  lemma EditImageCases(original: Option<string>, deleteImage: bool, upload: Option<string>)
    ensures deleteImage && !IsNullOrEmpty(original) ==> EditedImageUrl(original, deleteImage, upload) == None
    ensures !deleteImage && upload.Some? ==> EditedImageUrl(original, deleteImage, upload) == Some(UploadPrefix + upload.value)
    ensures !deleteImage && upload.None? ==> EditedImageUrl(original, deleteImage, upload) == original
    ensures deleteImage && IsNullOrEmpty(original) ==> EditedImageUrl(original, deleteImage, upload) == original
  {
  }

  // ---------------------------------------------------------------------
  // Create
  // ---------------------------------------------------------------------

  /** The row Create adds: the bound fields, the upload's URL, the next
      identity value and the caller as its store. */
  function CreatedItem(id: int, store: UserId, form: ItemForm, upload: Option<string>): (it: Item)
    ensures it.id == id && it.storeId == store && it.imageUrl == CreatedImageUrl(upload)
    ensures it.name == form.name && it.description == form.description
    ensures it.price == form.price && it.quantity == form.quantity
  {
    Item(id, form.name, form.description, form.price, form.quantity, CreatedImageUrl(upload), store)
  }

  /** Create on the tables: with a valid form a new item of this store is
      added; otherwise the form is shown again and nothing is added. */
  function CreateSpec(db: Db, store: UserId, form: ItemForm, bindingErrors: bool, upload: Option<string>): (Db, StoreResult)
  {
    if !ModelStateIsValid(form, bindingErrors) then (db, Redisplay)
    else
      (db.(items := db.items + [CreatedItem(db.nextItemId, store, form, upload)],
           nextItemId := db.nextItemId + 1),
       Saved)
  }

  lemma CreateKeepsValid(db: Db, store: UserId, form: ItemForm, bindingErrors: bool, upload: Option<string>)
    requires DbValid(db)
    ensures DbValid(CreateSpec(db, store, form, bindingErrors, upload).0)
  {
  }

  /** Create adds exactly one item, owned by the caller whatever the form
      says; it appears at the end of the store's list, and no order or
      line changes. An invalid form adds nothing. */
  lemma CreateAddsOwnedItem(db: Db, store: UserId, form: ItemForm, bindingErrors: bool, upload: Option<string>)
    ensures var (db', r) := CreateSpec(db, store, form, bindingErrors, upload);
            && (r == Redisplay || r == Saved)
            && (r == Redisplay <==> !ModelStateIsValid(form, bindingErrors))
            && (r == Redisplay ==> db' == db)
            && (r == Saved ==>
                  && db'.items == db.items + [CreatedItem(db.nextItemId, store, form, upload)]
                  && db'.nextItemId == db.nextItemId + 1
                  && Index(db'.items, store) == Index(db.items, store) + [CreatedItem(db.nextItemId, store, form, upload)]
                  && db'.orders == db.orders && db'.orderItems == db.orderItems)
  {
    if ModelStateIsValid(form, bindingErrors) {
      WhereAppend(db.items, CreatedItem(db.nextItemId, store, form, upload), (x: Item) => x.storeId == store);
    }
  }

  /** The new item's stock is the posted quantity, and every other item's
      stock is as it was. */
  lemma CreateSetsStock(db: Db, store: UserId, form: ItemForm, bindingErrors: bool, upload: Option<string>)
    requires ItemsValid(db.items, db.nextItemId)
    ensures var (db', r) := CreateSpec(db, store, form, bindingErrors, upload);
            r == Saved ==>
              && StockOf(db'.items, db.nextItemId) == form.quantity
              && (forall x :: x != db.nextItemId ==> StockOf(db'.items, x) == StockOf(db.items, x))
  {
    if ModelStateIsValid(form, bindingErrors) {
      var it := CreatedItem(db.nextItemId, store, form, upload);
      forall x ensures StockOf(db.items + [it], x) == if x == it.id then form.quantity else StockOf(db.items, x) {
        ItemIndexAfterAppend(db.items, it, x);
      }
    }
  }

  /** Only Name, Description, Price and Quantity are bound: the posted Id
      and ImageUrl make no difference to Create. */
  lemma CreateIgnoresUnboundFields(db: Db, store: UserId, form: ItemForm, bindingErrors: bool, upload: Option<string>,
                                   id: int, imageUrl: Option<string>)
    ensures CreateSpec(db, store, form.(id := id, imageUrl := imageUrl), bindingErrors, upload)
            == CreateSpec(db, store, form, bindingErrors, upload)
  {
  }

  /** Create: add the posted item to the caller's store. */
  method Create(ctx: FoodContext, store: UserId, form: ItemForm, bindingErrors: bool, upload: Option<string>)
    returns (r: StoreResult)
    requires ctx.Valid()
    modifies ctx
    ensures (ctx.State(), r) == CreateSpec(old(ctx.State()), store, form, bindingErrors, upload)
    ensures ctx.Valid()
  {
    CreateKeepsValid(ctx.State(), store, form, bindingErrors, upload);
    if !ModelStateIsValid(form, bindingErrors) {
      return Redisplay;
    }
    var imageUrl: Option<string> := None;
    if upload.Some? {
      imageUrl := Some(UploadPrefix + upload.value);
    }
    var item := Item(ctx.nextItemId, form.name, form.description, form.price, form.quantity, imageUrl, store);
    ctx.items := ctx.items + [item];
    ctx.nextItemId := ctx.nextItemId + 1;
    r := Saved;
  }

  // ---------------------------------------------------------------------
  // Edit
  // ---------------------------------------------------------------------

  /** Edit on the tables: the route id must be the posted id and the item
      the caller's own; with a valid form every posted column replaces the
      stored one, except StoreId, which is kept, and ImageUrl, which
      follows the image rule. */
  function EditSpec(db: Db, store: UserId, routeId: int, form: ItemForm, bindingErrors: bool,
                    deleteImage: bool, upload: Option<string>): (Db, StoreResult)
  {
    if routeId != form.id then (db, NotFound)
    else
      match OwnedItemIndex(db.items, store, routeId)
      case None => (db, NotFound)
      case Some(k) =>
        if !ModelStateIsValid(form, bindingErrors) then (db, Redisplay)
        else
          var original := db.items[k];
          var item := Item(form.id, form.name, form.description, form.price, form.quantity,
                           EditedImageUrl(original.imageUrl, deleteImage, upload), original.storeId);
          (db.(items := db.items[k := item]), Saved)
  }

  lemma EditKeepsValid(db: Db, store: UserId, routeId: int, form: ItemForm, bindingErrors: bool,
                       deleteImage: bool, upload: Option<string>)
    requires DbValid(db)
    ensures DbValid(EditSpec(db, store, routeId, form, bindingErrors, deleteImage, upload).0)
  {
  }

  /** Edit answers NotFound for a mismatched id or an item of another
      store, and redisplays an invalid form, changing nothing in either
      case. A save rewrites one row in place: its id and its StoreId stay,
      its stock becomes the posted quantity, and no other item, order or
      line changes; so every other item's stock plus reservations is
      conserved. */
  lemma EditRewritesOwnItem(db: Db, store: UserId, routeId: int, form: ItemForm, bindingErrors: bool,
                            deleteImage: bool, upload: Option<string>)
    requires UniqueItemIds(db.items)
    ensures var (db', r) := EditSpec(db, store, routeId, form, bindingErrors, deleteImage, upload);
            var owned := OwnedItemIndex(db.items, store, routeId);
            && (r == NotFound <==> routeId != form.id || owned.None?)
            && (r == Redisplay <==> routeId == form.id && owned.Some? && !ModelStateIsValid(form, bindingErrors))
            && (r != Saved ==> db' == db)
            && (r == Saved ==>
                  var k := owned.value;
                  && |db'.items| == |db.items|
                  && db'.items[k].id == routeId && db'.items[k].storeId == store
                  && db'.items[k].imageUrl == EditedImageUrl(db.items[k].imageUrl, deleteImage, upload)
                  && db'.items[k] == db.items[k].(name := form.name, description := form.description,
                                                  price := form.price, quantity := form.quantity,
                                                  imageUrl := EditedImageUrl(db.items[k].imageUrl, deleteImage, upload))
                  && (forall i :: 0 <= i < |db.items| && i != k ==> db'.items[i] == db.items[i])
                  && StockOf(db'.items, routeId) == form.quantity
                  && (forall x :: x != routeId ==> Total(db'.items, db'.orderItems, x) == Total(db.items, db.orderItems, x))
                  && db'.orders == db.orders && db'.orderItems == db.orderItems)
  {
    if routeId == form.id && ModelStateIsValid(form, bindingErrors) {
      match OwnedItemIndex(db.items, store, routeId)
      case None =>
      case Some(k) =>
        var items' := EditSpec(db, store, routeId, form, bindingErrors, deleteImage, upload).0.items;
        forall x ensures ItemIndex(items', x) == ItemIndex(db.items, x) {
          FirstIndexAgrees(items', db.items, (it: Item) => it.id == x, (it: Item) => it.id == x);
        }
    }
  }

  /** Edit: update one of the caller's items from the posted form. */
  method Edit(ctx: FoodContext, store: UserId, routeId: int, form: ItemForm, bindingErrors: bool,
              deleteImage: bool, upload: Option<string>) returns (r: StoreResult)
    requires ctx.Valid()
    modifies ctx
    ensures (ctx.State(), r) == EditSpec(old(ctx.State()), store, routeId, form, bindingErrors, deleteImage, upload)
    ensures ctx.Valid()
  {
    EditKeepsValid(ctx.State(), store, routeId, form, bindingErrors, deleteImage, upload);
    if routeId != form.id {
      return NotFound;
    }
    var found := OwnedItemIndex(ctx.items, store, routeId);
    if found.None? {
      return NotFound;
    }
    if !ModelStateIsValid(form, bindingErrors) {
      return Redisplay;
    }
    var original := ctx.items[found.value];
    var imageUrl: Option<string>;
    if deleteImage && !IsNullOrEmpty(original.imageUrl) {
      imageUrl := None;
    } else if !deleteImage && upload.Some? {
      imageUrl := Some(UploadPrefix + upload.value);
    } else {
      imageUrl := original.imageUrl;
    }
    var item := Item(form.id, form.name, form.description, form.price, form.quantity, imageUrl, original.storeId);
    ctx.items := ctx.items[found.value := item];
    r := Saved;
  }

  // ---------------------------------------------------------------------
  // DeleteConfirmed
  // ---------------------------------------------------------------------

  /** DeleteConfirmed on the tables: the caller's own item is removed; the
      order lines that reference it are not looked at and stay. */
  function DeleteItemSpec(db: Db, store: UserId, id: int): (Db, StoreResult)
  {
    match OwnedItemIndex(db.items, store, id)
    case None => (db, NotFound)
    case Some(k) => (db.(items := RemoveAt(db.items, k)), Saved)
  }

  lemma DeleteItemKeepsValid(db: Db, store: UserId, id: int)
    requires DbValid(db)
    ensures DbValid(DeleteItemSpec(db, store, id).0)
  {
    match OwnedItemIndex(db.items, store, id)
    case None =>
    case Some(k) =>
      var items' := RemoveAt(db.items, k);
      forall a, b | 0 <= a < b < |items'| ensures items'[a].id != items'[b].id {
        var a' := if a < k then a else a + 1;
        var b' := if b < k then b else b + 1;
        assert items'[a] == db.items[a'] && items'[b] == db.items[b'];
      }
  }

  /** DeleteConfirmed removes only the caller's own item, and afterwards no
      item has that id; another store's item is NotFound and nothing
      changes. Every other item's stock, every order and every line stay
      as they were, including the lines that still reserve the deleted
      item. */
  lemma DeleteItemRemovesOwnItem(db: Db, store: UserId, id: int)
    requires UniqueItemIds(db.items)
    ensures var (db', r) := DeleteItemSpec(db, store, id);
            && (r == NotFound || r == Saved)
            && (r == NotFound <==> OwnedItem(db.items, store, id).None?)
            && (r == NotFound ==> db' == db)
            && (r == Saved ==>
                  && db'.items == RemoveAt(db.items, OwnedItemIndex(db.items, store, id).value)
                  && (forall it :: it in db'.items <==> it in db.items && it.id != id)
                  && !HasItem(db'.items, id)
                  && (forall x :: x != id ==> StockOf(db'.items, x) == StockOf(db.items, x))
                  && db'.orders == db.orders && db'.orderItems == db.orderItems)
  {
    match OwnedItemIndex(db.items, store, id)
    case None =>
    case Some(k) =>
      var items' := RemoveAt(db.items, k);
      forall x | x != id ensures StockOf(items', x) == StockOf(db.items, x) {
        match ItemIndex(db.items, x)
        case Some(i) =>
          var i' := if i < k then i else i - 1;
          assert items'[i'] == db.items[i];
          var j := ItemIndex(items', x).value;
          var j' := if j < k then j else j + 1;
          assert items'[j] == db.items[j'];
        case None =>
      }
      forall it | it in db.items && it.id != id ensures it in items' {
        var i :| 0 <= i < |db.items| && db.items[i] == it;
        assert items'[if i < k then i else i - 1] == it;
      }
      forall it | it in items' ensures it in db.items && it.id != id {
        var i :| 0 <= i < |items'| && items'[i] == it;
        assert items'[i] == db.items[if i < k then i else i + 1];
      }
  }

  /** DeleteConfirmed: remove one of the caller's items. */
  method DeleteConfirmed(ctx: FoodContext, store: UserId, id: int) returns (r: StoreResult)
    requires ctx.Valid()
    modifies ctx
    ensures (ctx.State(), r) == DeleteItemSpec(old(ctx.State()), store, id)
    ensures ctx.Valid()
  {
    DeleteItemKeepsValid(ctx.State(), store, id);
    var found := OwnedItemIndex(ctx.items, store, id);
    if found.None? {
      return NotFound;
    }
    ctx.items := RemoveAt(ctx.items, found.value);
    r := Saved;
  }
}
