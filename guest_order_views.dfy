/** orders/guest_views.py: GuestCheckoutView.post, the checkout without an account. */
module GuestOrderViews {
  import opened Wrappers
  import opened Http
  import opened ProductModels
  import opened CartModels
  import opened OrderModels
  import opened OrderSerializers
  import opened Store
  import opened GuestCartViews
  import opened OrderViews

  /**
   * The item loop of the guest checkout: one item per line with the product's price copied, and
   * the product re-read for every line, so two lines of the same book both come off its stock.
   */
  method PlaceItemsAccumulated(db: Database, id: OrderId, lines: seq<CartLine>)
    requires db.Valid() && id in db.orders && ProductsExist(lines, db.products)
    modifies db`items, db`products
    ensures db.Valid()
    ensures db.items == old(db.items) + Snapshot(id, lines, old(db.products))
    ensures db.products == Accumulated(old(db.products), lines)
  {
    ghost var before := db.items;
    var orig := db.products;
    WriteItemsAccumulated(db, id, lines);
    SnapshotRefers(id, lines, orig, db.orders);
    NewItemsKeepOrders(db.orders, db.nextOrderId, before, orig, db.deliveries, db.payments, Snapshot(id, lines, orig));
    SameCatalogKeys(orig, db.products, db.lines, db.nextLineId, db.userCarts, db.guestCarts,
                    db.orders, db.nextOrderId, db.items, db.deliveries, db.payments);
  }

  /** The loop itself: per line, an item at the product's current price, then the product saved with less stock. */
  method WriteItemsAccumulated(db: Database, id: OrderId, lines: seq<CartLine>)
    requires ProductsExist(lines, db.products)
    modifies db`items, db`products
    ensures db.items == old(db.items) + Snapshot(id, lines, old(db.products))
    ensures db.products == Accumulated(old(db.products), lines)
  {
    ghost var before := db.items;
    var orig := db.products;
    for k := 0 to |lines|
      invariant db.items == before + Snapshot(id, lines[..k], orig)
      invariant db.products == Accumulated(orig, lines[..k])
    {
      var l := lines[k];
      SnapshotStep(id, lines, orig, k);
      AccumulatedStep(orig, lines, k);
      var current := db.products[l.product];
      db.items := db.items + [OrderItem(id, l.product, l.quantity, current.price, l.format)];
      db.products := db.products[l.product := Decremented(current, l.quantity)];
    }
    assert lines[..|lines|] == lines;
  }

  /**
   * The transaction of the guest checkout: a pending guest order carrying the contact details and
   * the cart's total, its delivery address, one item per line, the stock taken off line by line,
   * and the guest cart's lines deleted.
   */
  method PlaceGuestOrder(db: Database, key: string, cart: seq<CartLine>, checkout: Checkout) returns (id: OrderId)
    requires db.Valid() && cart == LinesOf(db.lines, CartKey.GuestCart(key)) && ProductsExist(cart, db.products)
    modifies db`orders, db`nextOrderId, db`items, db`products, db`lines, db`deliveries
    ensures db.Valid()
    ensures id == old(db.nextOrderId) && id !in old(db.orders) && db.nextOrderId == id + 1
    ensures db.orders == old(db.orders)[id := NewGuestOrder(checkout.contact, TotalPrice(cart, old(db.products)))]
    ensures db.deliveries == old(db.deliveries)[id := checkout.address]
    ensures db.items == old(db.items) + Snapshot(id, cart, old(db.products))
    ensures db.products == Accumulated(old(db.products), cart)
    ensures db.lines == DropCart(old(db.lines), CartKey.GuestCart(key))
  {
    id := OpenGuestOrder(db, cart, checkout);
    DropCartKeepsTable(db.lines, db.nextLineId, db.products, db.userCarts, db.guestCarts, CartKey.GuestCart(key));
    db.lines := DropCart(db.lines, CartKey.GuestCart(key));
  }

  /**
   * Order.objects.create for a guest, its delivery address under the same key, and the item loop.
   */
  method OpenGuestOrder(db: Database, cart: seq<CartLine>, checkout: Checkout) returns (id: OrderId)
    requires db.Valid() && ProductsExist(cart, db.products)
    modifies db`orders, db`nextOrderId, db`deliveries, db`items, db`products
    ensures db.Valid()
    ensures id == old(db.nextOrderId) && id !in old(db.orders) && db.nextOrderId == id + 1
    ensures db.orders == old(db.orders)[id := NewGuestOrder(checkout.contact, TotalPrice(cart, old(db.products)))]
    ensures db.deliveries == old(db.deliveries)[id := checkout.address]
    ensures db.items == old(db.items) + Snapshot(id, cart, old(db.products))
    ensures db.products == Accumulated(old(db.products), cart)
  {
    id := RecordGuestOrder(db, cart, checkout);
    PlaceItemsAccumulated(db, id, cart);
  }

  /** The order row and its delivery address. */
  method RecordGuestOrder(db: Database, cart: seq<CartLine>, checkout: Checkout) returns (id: OrderId)
    requires db.Valid() && ProductsExist(cart, db.products)
    modifies db`orders, db`nextOrderId, db`deliveries
    ensures db.Valid()
    ensures id == old(db.nextOrderId) && id !in old(db.orders) && db.nextOrderId == id + 1
    ensures db.orders == old(db.orders)[id := NewGuestOrder(checkout.contact, TotalPrice(cart, db.products))]
    ensures db.deliveries == old(db.deliveries)[id := checkout.address]
  {
    var order := NewGuestOrder(checkout.contact, TotalPrice(cart, db.products));
    id := db.nextOrderId;
    NewOrderKeepsOrders(db.orders, id, db.items, db.products, db.deliveries, db.payments, order);
    db.orders := db.orders[id := order];
    db.nextOrderId := id + 1;
    NewDeliveryKeepsOrders(db.orders, db.nextOrderId, db.items, db.products, db.deliveries, db.payments, id, checkout.address);
    db.deliveries := db.deliveries[id := checkout.address];
  }

  /** The refusals of GuestCheckoutView.post, in the order the view makes them; None lets the checkout through. */
  function GuestRefusal(valid: bool, sessionMissing: bool, hasCart: bool, cart: seq<CartLine>,
                        products: map<ProductId, Product>): (r: Option<Reply>)
    requires ProductsExist(cart, products)
    ensures r.None? <==> valid && !sessionMissing && hasCart && cart != [] && StockCovers(cart, products)
    ensures !valid ==> r == Some(BadRequest(InvalidInput))
    ensures valid && (sessionMissing || !hasCart || cart == []) ==> r == Some(BadRequest(CartEmpty))
    ensures valid && !sessionMissing && hasCart && cart != [] && !StockCovers(cart, products) ==> r == Some(BadRequest(OutOfStock))
  {
    if !valid then Some(BadRequest(InvalidInput))
    else if sessionMissing || !hasCart || cart == [] then Some(BadRequest(CartEmpty))
    else if !StockCovers(cart, products) then Some(BadRequest(OutOfStock))
    else None
  }

  /**
   * GuestCheckoutView.post: `checked` is the outcome of the serializer that runs first,
   * ValidateGuestCheckout of the request body, and any failing field makes the reply 400. `failure` stands
   * for an exception inside the transaction (a database error): the reply is 500 and the
   * transaction leaves nothing behind. The confirmation e-mail is not modelled: a failure to send
   * it is caught and does not change the outcome.
   */
  method CheckoutValidated(db: Database, session: Session, checked: Result<Checkout, set<CheckoutField>>, failure: bool)
    returns (reply: Reply)
    requires db.Valid()
    modifies db`orders, db`nextOrderId, db`items, db`products, db`lines, db`deliveries
    ensures db.Valid()
    ensures var key := if session.Missing() then "" else session.key.value;
      var cart := LinesOf(old(db.lines), CartKey.GuestCart(key));
      ProductsExist(cart, old(db.products)) &&
      var refusal := GuestRefusal(checked.Success?, session.Missing(), key in old(db.guestCarts), cart, old(db.products));
      if refusal.Some? || failure then
        reply == (if refusal.Some? then refusal.value else InternalError) &&
        db.orders == old(db.orders) && db.nextOrderId == old(db.nextOrderId) && db.items == old(db.items) &&
        db.products == old(db.products) && db.lines == old(db.lines) && db.deliveries == old(db.deliveries)
      else
        var id := old(db.nextOrderId);
        reply == Created && id !in old(db.orders) && db.nextOrderId == id + 1 &&
        db.orders == old(db.orders)[id := NewGuestOrder(checked.value.contact, TotalPrice(cart, old(db.products)))] &&
        db.deliveries == old(db.deliveries)[id := checked.value.address] &&
        db.items == old(db.items) + Snapshot(id, cart, old(db.products)) &&
        db.products == Accumulated(old(db.products), cart) &&
        db.lines == DropCart(old(db.lines), CartKey.GuestCart(key))
  {
    var key := if session.Missing() then "" else session.key.value;
    CartProductsExist(db.lines, db.nextLineId, db.products, db.userCarts, db.guestCarts, CartKey.GuestCart(key));
    var cart := LinesOf(db.lines, CartKey.GuestCart(key));
    if checked.Failure? {
      return BadRequest(InvalidInput);
    }
    if session.Missing() || key !in db.guestCarts || cart == [] {
      return BadRequest(CartEmpty);
    }
    var ok := CheckStock(cart, db.products);
    if !ok {
      return BadRequest(OutOfStock);
    }
    if failure {
      return InternalError;
    }
    var id := PlaceGuestOrder(db, key, cart, checked.value);
    reply := Created;
  }

  /** A guest order's items are worth exactly the total the order was created with. */
  lemma GuestOrderTotal(id: OrderId, contact: GuestContact, cart: seq<CartLine>, products: map<ProductId, Product>)
    requires ProductsExist(cart, products)
    ensures ItemsTotal(Snapshot(id, cart, products)) == NewGuestOrder(contact, TotalPrice(cart, products)).totalAmount
  {
    SnapshotTotal(id, cart, products);
  }
}
